/**
 * The channel's byte codec and its send/receive contract.
 *
 * The layout is the default one of the binary serialiser (bincode 1.x): a
 * little-endian u32 variant index, then the fields in declaration order, each
 * float as its 32-bit pattern in little-endian order and each u8 as one byte.
 * There is no length prefix: the variant index alone fixes how many bytes
 * follow, which is what makes back-to-back packets decodable in order.
 */
module Codec {
  import opened Results
  import opened Protocol
  import opened ChannelErrors

  /** One octet on the wire, as its value. */
  type Byte = x: int | 0 <= x < 256

  /** The bit pattern of an f32, as the unsigned number it spells; kept opaque so that a round trip is bit-exact. */
  type Word = x: int | 0 <= x < 0x1_0000_0000

  /** A packet as it travels on the wire. */
  type WirePacket = Packet<Word>

  /** The text of the I/O error a stream gives when it ends inside a value. */
  const EofMessage: string := "failed to fill whole buffer"

  /** The error the decoder reports when the input ends before the packet does. */
  const Eof: BincodeError := BincodeError.Io(IoError(UnexpectedEof, EofMessage))

  /** The tail of the message the decoder gives for an unknown variant index. */
  const UnknownVariantMessage: string := "expected variant index 0 <= i < 3"

  /** Little-endian bytes of a 32-bit word. */
  function WordBytes(w: Word): (bs: seq<Byte>)
    ensures |bs| == 4
  {
    var w1 := w / 0x100;
    var w2 := w1 / 0x100;
    [w % 0x100, w1 % 0x100, w2 % 0x100, w2 / 0x100]
  }

  /** The 32-bit word whose little-endian bytes are `b0 b1 b2 b3`. */
  function WordOf(b0: Byte, b1: Byte, b2: Byte, b3: Byte): Word {
    b0 + 0x100 * (b1 + 0x100 * (b2 + 0x100 * b3))
  }

  /** Splitting off the low byte of `lo + 0x100 * hi` gives back `lo` and `hi`. */
  lemma LowByte(lo: Byte, hi: nat)
    ensures (lo + 0x100 * hi) % 0x100 == lo && (lo + 0x100 * hi) / 0x100 == hi
  {
  }

  lemma WordOfWordBytes(w: Word)
    ensures var bs := WordBytes(w); WordOf(bs[0], bs[1], bs[2], bs[3]) == w
  {
  }

  lemma WordBytesOfWordOf(b0: Byte, b1: Byte, b2: Byte, b3: Byte)
    ensures WordBytes(WordOf(b0, b1, b2, b3)) == [b0, b1, b2, b3]
  {
    LowByte(b2, b3);
    LowByte(b1, b2 + 0x100 * b3);
    LowByte(b0, b1 + 0x100 * (b2 + 0x100 * b3));
  }

  /** The variant index the serialiser writes first: declaration order of `Packet`. */
  function VariantIndex<F>(p: Packet<F>): Word {
    match p
    case Player(_, _) => 0
    case Time(_) => 1
    case Health(_) => 2
  }

  /** Bytes of a planar vector: x then z. */
  function VectorBytes(v: ChannelVector2<Word>): (bs: seq<Byte>)
    ensures |bs| == 8
  {
    WordBytes(v.x) + WordBytes(v.z)
  }

  /** The bytes that follow the variant index. */
  function Payload(p: WirePacket): (bs: seq<Byte>)
    ensures |bs| == if p.Player? then 16 else 1
  {
    match p
    case Player(pos, target) => VectorBytes(pos) + VectorBytes(target)
    case Time(t) => [t]
    case Health(h) => [h]
  }

  /** The encoding of one packet (`bincode::serialize_into`). */
  function Encode(p: WirePacket): (bs: seq<Byte>)
    ensures |bs| == if p.Player? then 20 else 5
  {
    WordBytes(VariantIndex(p)) + Payload(p)
  }

  /** The word stored little-endian at `bs[i..i+4]`. */
  function WordAt(bs: seq<Byte>, i: nat): Word
    requires i + 4 <= |bs|
  {
    WordOf(bs[i], bs[i + 1], bs[i + 2], bs[i + 3])
  }

  lemma WordAtWordBytes(bs: seq<Byte>, i: nat, w: Word)
    requires i + 4 <= |bs| && bs[i..i + 4] == WordBytes(w)
    ensures WordAt(bs, i) == w
  {
    WordOfWordBytes(w);
  }

  /** Decode the fields of the variant with index `tag` from the front of `body`. */
  function DecodePayload(tag: Word, body: seq<Byte>): (r: Result<(WirePacket, seq<Byte>), BincodeError>)
    ensures r.Ok? ==> |r.value.1| < |body| && body[|body| - |r.value.1|..] == r.value.1
    ensures r.Ok? ==> VariantIndex(r.value.0) == tag
  {
    if tag == 0 then
      if |body| < 16 then Err(Eof)
      else
        var pos := ChannelVector2(WordAt(body, 0), WordAt(body, 4));
        var target := ChannelVector2(WordAt(body, 8), WordAt(body, 12));
        Ok((Packet.Player(pos, target), body[16..]))
    else if tag == 1 || tag == 2 then
      if |body| < 1 then Err(Eof)
      else
        var v := body[0];
        Ok((if tag == 1 then Time(v) else Health(v), body[1..]))
    else
      Err(Custom(UnknownVariantMessage))
  }

  /**
   * `bincode::deserialize_from`: decode one packet from the front of `bs` and
   * return it with the bytes that follow it. Input that ends too early is an
   * I/O error of kind `UnexpectedEof`; an unknown variant index is a
   * non-I/O codec error.
   */
  function Decode(bs: seq<Byte>): (r: Result<(WirePacket, seq<Byte>), BincodeError>)
    ensures r.Ok? ==> |r.value.1| < |bs| && bs[|bs| - |r.value.1|..] == r.value.1
    ensures |bs| < 4 ==> r == Err(Eof)
  {
    if |bs| < 4 then Err(Eof) else DecodePayload(WordAt(bs, 0), bs[4..])
  }

  lemma VectorAt(bs: seq<Byte>, i: nat, v: ChannelVector2<Word>)
    requires i + 8 <= |bs| && bs[i..i + 8] == VectorBytes(v)
    ensures WordAt(bs, i) == v.x && WordAt(bs, i + 4) == v.z
  {
    assert bs[i..i + 4] == bs[i..i + 8][..4] == WordBytes(v.x);
    assert bs[i + 4..i + 8] == bs[i..i + 8][4..] == WordBytes(v.z);
    WordAtWordBytes(bs, i, v.x);
    WordAtWordBytes(bs, i + 4, v.z);
  }

  lemma DecodePayloadPlayer(pos: ChannelVector2<Word>, target: ChannelVector2<Word>, rest: seq<Byte>)
    ensures DecodePayload(0, Payload(Packet.Player(pos, target)) + rest) == Ok((Packet.Player(pos, target), rest))
  {
    var body := Payload(Packet.Player(pos, target)) + rest;
    assert body[0..8] == VectorBytes(pos) && body[8..16] == VectorBytes(target);
    VectorAt(body, 0, pos);
    VectorAt(body, 8, target);
    assert body[16..] == rest;
  }

  lemma DecodePayloadByte(tag: Word, v: U8, rest: seq<Byte>)
    requires tag == 1 || tag == 2
    ensures DecodePayload(tag, [v] + rest) == Ok((if tag == 1 then Time(v) else Health(v), rest))
  {
    var body := [v] + rest;
    assert body[0] == v && body[1..] == rest;
  }

  /** After the variant index, decoding is decoding of the payload. */
  lemma DecodeTagged(tag: Word, body: seq<Byte>)
    ensures Decode(WordBytes(tag) + body) == DecodePayload(tag, body)
  {
    var bs := WordBytes(tag) + body;
    assert bs[0..4] == WordBytes(tag);
    WordAtWordBytes(bs, 0, tag);
    assert bs[4..] == body;
  }

  /** Decoding the encoding of `p` followed by anything gives back `p` and exactly the rest. */
  lemma DecodeEncode(p: WirePacket, rest: seq<Byte>)
    ensures Decode(Encode(p) + rest) == Ok((p, rest))
  {
    assert Encode(p) + rest == WordBytes(VariantIndex(p)) + (Payload(p) + rest);
    DecodeTagged(VariantIndex(p), Payload(p) + rest);
    match p
    case Player(pos, target) =>
      DecodePayloadPlayer(pos, target, rest);
    case Time(t) =>
      DecodePayloadByte(1, t, rest);
    case Health(h) =>
      DecodePayloadByte(2, h, rest);
  }

  lemma WordBytesAt(bs: seq<Byte>, i: nat)
    requires i + 4 <= |bs|
    ensures WordBytes(WordAt(bs, i)) == bs[i..i + 4]
  {
    WordBytesOfWordOf(bs[i], bs[i + 1], bs[i + 2], bs[i + 3]);
  }

  lemma DecodePayloadReadsPayload(tag: Word, body: seq<Byte>)
    requires DecodePayload(tag, body).Ok?
    ensures body == Payload(DecodePayload(tag, body).value.0) + DecodePayload(tag, body).value.1
  {
    if tag == 0 {
      WordBytesAt(body, 0);
      WordBytesAt(body, 4);
      WordBytesAt(body, 8);
      WordBytesAt(body, 12);
      assert body[..16] == body[0..4] + body[4..8] + body[8..12] + body[12..16];
      assert body == body[..16] + body[16..];
    } else {
      assert body == [body[0]] + body[1..];
    }
  }

  /** The first four bytes of an input are the encoding of the word read from them. */
  lemma TagPrefix(bs: seq<Byte>)
    requires |bs| >= 4
    ensures bs == WordBytes(WordAt(bs, 0)) + bs[4..]
  {
    WordBytesAt(bs, 0);
    assert bs == bs[0..4] + bs[4..];
  }

  /** Every successful decode read exactly the encoding of the packet it returns. */
  lemma DecodeReadsEncoding(bs: seq<Byte>)
    requires Decode(bs).Ok?
    ensures bs == Encode(Decode(bs).value.0) + Decode(bs).value.1
  {
    var tag := WordAt(bs, 0);
    var body := bs[4..];
    var r := DecodePayload(tag, body);
    assert Decode(bs) == r;
    TagPrefix(bs);
    DecodePayloadReadsPayload(tag, body);
    var p := r.value.0;
    assert bs == WordBytes(VariantIndex(p)) + (Payload(p) + r.value.1);
  }

  /** The variant index alone decides which variant a decode produces. */
  lemma VariantIndexDecidesShape(bs: seq<Byte>)
    requires Decode(bs).Ok?
    ensures |bs| >= 4 && VariantIndex(Decode(bs).value.0) == WordAt(bs, 0)
  {
  }

  /** Packets of different variants never decode as one another. */
  lemma DistinctVariantsDistinctTags(p: WirePacket, q: WirePacket, rest: seq<Byte>)
    requires VariantIndex(p) != VariantIndex(q)
    ensures Decode(Encode(p) + rest) != Ok((q, rest))
  {
    DecodeEncode(p, rest);
  }

  /** The bytes of a whole sequence of packets sent back to back. */
  function EncodeAll(ps: seq<WirePacket>): (bs: seq<Byte>)
  {
    if ps == [] then [] else Encode(ps[0]) + EncodeAll(ps[1..])
  }

  /** Decode packets one after the other until the input is used up. */
  function DecodeStream(bs: seq<Byte>): Result<seq<WirePacket>, BincodeError>
    decreases |bs|
  {
    if bs == [] then Ok([])
    else
      match Decode(bs)
      case Err(e) => Err(e)
      case Ok((p, rest)) =>
        match DecodeStream(rest)
        case Err(e) => Err(e)
        case Ok(ps) => Ok([p] + ps)
  }

  /** Packets sent back to back are received in the same order, none lost, none merged. */
  lemma {:induction false} DecodeStreamEncodeAll(ps: seq<WirePacket>)
    ensures DecodeStream(EncodeAll(ps)) == Ok(ps)
  {
    if ps != [] {
      var tail := EncodeAll(ps[1..]);
      DecodeEncode(ps[0], tail);
      assert EncodeAll(ps) == Encode(ps[0]) + tail;
      DecodeStreamEncodeAll(ps[1..]);
      assert [ps[0]] + ps[1..] == ps;
    }
  }

  /**
   * `Channel::send`: append the encoding of `p` to what the stream has
   * carried so far, unless the stream write fails with `fault`. Encoding
   * itself cannot fail, so every error is an I/O error.
   */
  function Send(written: seq<Byte>, p: WirePacket, fault: Option<IoError>): (r: Result<seq<Byte>, ChannelError>)
    ensures fault.Some? <==> r.Err?
    ensures r.Err? ==> r.error == ChannelError.Io(fault.value)
    ensures r.Ok? ==> |r.value| > |written| && r.value[..|written|] == written
  {
    match fault
    case Some(e) => Err(ChannelError.Io(e))
    case None => Ok(written + Encode(p))
  }

  /**
   * `Channel::receive`: one packet from the front of the incoming bytes, or
   * the codec's error classified into a channel error.
   */
  function Receive(incoming: seq<Byte>): (r: Result<(WirePacket, seq<Byte>), ChannelError>)
    ensures r.Ok? <==> Decode(incoming).Ok?
    ensures r.Err? ==> r.error == FromBincode(Decode(incoming).error)
    ensures |incoming| < 4 ==> r.Err? && r.error.Io? && r.error.io.kind == UnexpectedEof
  {
    match Decode(incoming)
    case Ok(v) => Ok(v)
    case Err(e) => Err(FromBincode(e))
  }

  /** A packet sent on a fault-free stream is what the peer receives next, with the rest intact. */
  lemma SendThenReceive(written: seq<Byte>, p: WirePacket, later: seq<Byte>)
    ensures Send(written, p, Option.None).Ok?
    ensures var out := Send(written, p, Option.None).value;
      Receive(out[|written|..] + later) == Ok((p, later))
  {
    var out := Send(written, p, Option.None).value;
    assert out[|written|..] == Encode(p);
    DecodeEncode(p, later);
  }

  /** An unknown variant index is a codec failure, never an I/O failure. */
  lemma UnknownVariantIsCodecError(bs: seq<Byte>)
    requires |bs| >= 4 && WordAt(bs, 0) > 2
    ensures Receive(bs) == Err(ChannelError.Bincode)
  {
  }
}
