/**
 * The error vocabulary of the game channel: the standard I/O error a stream
 * reports, the error kinds of the binary codec, and the two-way classification
 * `ChannelError` that every caller uses to tell a dead connection (I/O) from a
 * transient decoding failure (codec).
 */
module ChannelErrors {

  /** The kinds of `std::io::Error` the model needs to tell apart. */
  datatype IoErrorKind =
    | ConnectionRefused
    | ConnectionReset
    | ConnectionAborted
    | NotConnected
    | BrokenPipe
    | WouldBlock
    | TimedOut
    | UnexpectedEof
    | Interrupted
    | Other

  /** An I/O error: its kind and the text its own `Display` prints. */
  datatype IoError = IoError(kind: IoErrorKind, message: string)

  /** The error kinds of the binary codec (`bincode::ErrorKind`, version 1.x). */
  datatype BincodeError =
    | Io(io: IoError)
    | InvalidUtf8Encoding
    | InvalidBoolEncoding
    | InvalidCharEncoding
    | InvalidTagEncoding(tag: nat)
    | DeserializeAnyNotSupported
    | SizeLimit
    | SequenceMustHaveLength
    | Custom(message: string)

  /** The channel's error: a failure of the stream, or of the codec. */
  datatype ChannelError = Io(io: IoError) | Bincode

  /** The line printed for a codec failure. */
  const BincodeMessage: string := "Bincode failed to (de)serialize\n"

  /**
   * `From<Box<ErrorKind>> for ChannelError`: an I/O error of the codec keeps
   * its inner I/O error; every other codec error becomes `Bincode`.
   */
  function FromBincode(e: BincodeError): (r: ChannelError)
    ensures r.Io? <==> e.Io?
    ensures e.Io? ==> r.io == e.io
    ensures !e.Io? ==> r == ChannelError.Bincode
  {
    match e
    case Io(io) => ChannelError.Io(io)
    case _ => ChannelError.Bincode
  }

  /** The classification reaches both of its outcomes, and every I/O error. */
  lemma ClassificationIsOnto(c: ChannelError)
    ensures exists e: BincodeError :: FromBincode(e) == c
  {
    match c
    case Io(io) =>
      assert FromBincode(BincodeError.Io(io)) == c;
    case Bincode =>
      assert FromBincode(SizeLimit) == c;
  }

  /**
   * `Display for ChannelError`: an I/O error prints as the inner error does;
   * a codec error prints a fixed line ending in a newline.
   */
  function Display(e: ChannelError): (r: string)
    ensures e.Bincode? ==> r == BincodeMessage && r[|r| - 1] == '\n'
    ensures e.Io? ==> r == e.io.message
  {
    match e
    case Io(io) => io.message
    case Bincode => BincodeMessage
  }

  /**
   * What the server prints for a failed session is the message of the codec's
   * own I/O error, passed through the classification unchanged; every other
   * codec failure prints the fixed line.
   */
  lemma DisplayAfterClassification(b: BincodeError)
    ensures b.Io? ==> Display(FromBincode(b)) == b.io.message
    ensures !b.Io? ==> Display(FromBincode(b)) == BincodeMessage
  {
  }

  /**
   * The printed text identifies a codec failure unless an I/O error happens
   * to carry the very same text.
   */
  lemma DisplayTellsCodecFromIo(e: ChannelError)
    ensures Display(e) == BincodeMessage <==> e.Bincode? || e.io.message == BincodeMessage
  {
  }
}
