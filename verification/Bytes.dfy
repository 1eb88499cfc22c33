/** Byte strings, and the options and errors the other modules share. */
module Bytes {

  type byte = b: int | 0 <= b < 256

  type Bytes = seq<byte>

  datatype Option<+T> = None | Some(value: T)

  /** Go's `error`: nil, io.EOF, or some other error value. */
  datatype Error = Nil | EOF | Other(code: nat)

  function Min(a: nat, b: nat): nat {
    if a < b then a else b
  }

  lemma Associative(a: Bytes, b: Bytes, c: Bytes)
    ensures (a + b) + c == a + (b + c)
  {
  }

  function BigEndian(hi: nat, lo: nat): nat {
    hi * 256 + lo
  }

  /** A text whose characters are single bytes, as all texts in the source are. */
  predicate IsAscii(text: string) {
    forall i :: 0 <= i < |text| ==> text[i] as int < 128
  }

  /** A Go string constant, byte for byte. */
  function Ascii(text: string): (b: Bytes)
    requires IsAscii(text)
    ensures |b| == |text| && forall i :: 0 <= i < |b| ==> b[i] == text[i] as int
  {
    seq(|text|, i requires 0 <= i < |text| => text[i] as int)
  }

  /** The bytes start with the text. */
  predicate StartsWith(b: Bytes, text: string) {
    |text| <= |b| && forall i :: 0 <= i < |text| ==> b[i] == text[i] as int
  }

  lemma AsciiStarts(b: Bytes, text: string)
    requires IsAscii(text)
    ensures Ascii(text) <= b <==> StartsWith(b, text)
  {
    if StartsWith(b, text) {
      assert Ascii(text) == b[..|text|];
    }
  }

  /** The set of elements of a list. */
  function Elements<T(==)>(list: seq<T>): set<T> {
    set x | x in list
  }
}
