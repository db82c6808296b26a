/**
 * The lobby's text field for the server address. Keys are abstracted to the
 * characters typed since the last frame and whether backspace was pressed.
 * The length limit counts bytes of the UTF-8 encoding, as Rust's
 * `String::len` does.
 */
module InputBoxes {

  /** `InputBox::MAX_INPUT_CHAR`. */
  const MaxInputChar: nat := 20

  datatype InputBox = InputBox(text: string)

  /** Number of bytes in the UTF-8 encoding of one character. */
  function Utf8Width(c: char): (n: nat)
    ensures 1 <= n <= 4
    ensures (c as int < 0x80) <==> n == 1
  {
    if c as int < 0x80 then 1
    else if c as int < 0x800 then 2
    else if c as int < 0x10000 then 3
    else 4
  }

  /** Byte length of the UTF-8 encoding of a text. */
  function ByteLen(s: string): (n: nat)
    ensures n >= |s|
    ensures s == [] <==> n == 0
  {
    if s == [] then 0 else ByteLen(s[..|s| - 1]) + Utf8Width(s[|s| - 1])
  }

  /** Every character is encoded in one byte. */
  predicate AllAscii(s: string) {
    forall i :: 0 <= i < |s| ==> s[i] as int < 0x80
  }

  lemma {:induction false} AsciiByteLen(s: string)
    requires AllAscii(s)
    ensures ByteLen(s) == |s|
  {
    if s != [] {
      AsciiByteLen(s[..|s| - 1]);
    }
  }

  /** `InputBox::default`: empty text. */
  function Default(): (b: InputBox)
    ensures b.text == [] && ByteLen(b.text) == 0
  {
    InputBox([])
  }

  /** `InputBox::get_text`. */
  function GetText(b: InputBox): string {
    b.text
  }

  /** Append the typed characters in order, dropping each one that arrives when the text is full. */
  function Type(text: string, typed: string): (r: string)
    ensures |text| <= |r| <= |text| + |typed|
    ensures r == text + typed[..|r| - |text|]
    ensures ByteLen(text) >= MaxInputChar ==> r == text
    ensures ByteLen(text) <= MaxInputChar + 3 ==> ByteLen(r) <= MaxInputChar + 3
    decreases |typed|
  {
    if typed == [] then text
    else if ByteLen(text) >= MaxInputChar then Type(text, typed[1..])
    else
      var next := text + [typed[0]];
      assert next[..|next| - 1] == text;
      var r := Type(next, typed[1..]);
      assert typed[..|r| - |text|] == [typed[0]] + typed[1..][..|r| - |next|];
      r
  }

  /** A character is dropped only when the text has already reached the limit. */
  lemma {:induction false} TypeDropsOnlyWhenFull(text: string, typed: string)
    requires |Type(text, typed)| < |text| + |typed|
    ensures ByteLen(Type(text, typed)) >= MaxInputChar
    decreases |typed|
  {
    if ByteLen(text) < MaxInputChar {
      var next := text + [typed[0]];
      assert next[..|next| - 1] == text;
      TypeDropsOnlyWhenFull(next, typed[1..]);
    }
  }

  /** With one-byte characters the text never grows beyond the limit. */
  lemma {:induction false} AsciiStaysWithinLimit(text: string, typed: string)
    requires AllAscii(text) && AllAscii(typed) && |text| <= MaxInputChar
    ensures AllAscii(Type(text, typed)) && |Type(text, typed)| <= MaxInputChar
    decreases |typed|
  {
    if typed != [] {
      AsciiByteLen(text);
      var next := if ByteLen(text) < MaxInputChar then text + [typed[0]] else text;
      assert AllAscii(typed[1..]);
      AsciiStaysWithinLimit(next, typed[1..]);
    }
  }

  /** Drop the last character, if there is one. */
  function Backspace(text: string): (r: string)
    ensures text == [] ==> r == []
    ensures text != [] ==> r + [text[|text| - 1]] == text
  {
    if text == [] then text else text[..|text| - 1]
  }

  /**
   * `InputBox::update`: with the pointer inside the box, the typed
   * characters are appended under the limit and then a backspace removes one
   * character; with the pointer outside, nothing changes.
   */
  function Update(b: InputBox, inside: bool, typed: string, backspace: bool): (r: InputBox)
    ensures !inside ==> r == b
    ensures inside && !backspace ==> r.text == Type(b.text, typed)
    ensures inside && backspace ==> r.text == Backspace(Type(b.text, typed))
  {
    if inside then
      var typedText := Type(b.text, typed);
      InputBox(if backspace then Backspace(typedText) else typedText)
    else b
  }

  /** Typing one-byte characters never takes the text past the limit. */
  lemma AsciiUpdateWithinLimit(b: InputBox, inside: bool, typed: string, backspace: bool)
    requires AllAscii(b.text) && AllAscii(typed) && |b.text| <= MaxInputChar
    ensures |Update(b, inside, typed, backspace).text| <= MaxInputChar
  {
    AsciiStaysWithinLimit(b.text, typed);
  }

  /** Every update keeps the encoded text within three bytes of the limit. */
  lemma UpdateBounded(b: InputBox, inside: bool, typed: string, backspace: bool)
    requires ByteLen(b.text) <= MaxInputChar + 3
    ensures ByteLen(Update(b, inside, typed, backspace).text) <= MaxInputChar + 3
  {
    var t := Type(b.text, typed);
    if t != [] {
      assert ByteLen(t) == ByteLen(t[..|t| - 1]) + Utf8Width(t[|t| - 1]);
    }
  }
}
