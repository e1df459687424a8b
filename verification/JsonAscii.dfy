/** Texts in ASCII. */
module JsonAscii {
  /** The byte of an ASCII code. */
  function AsciiByte(n: nat): (b: bv8)
    requires n < 0x80
    ensures b as int == n
  {
    n as bv8
  }

  /** The bytes of a text in ASCII. */
  function Ascii(s: string): (bytes: seq<bv8>)
    requires forall i :: 0 <= i < |s| ==> s[i] as int < 0x80
    ensures |bytes| == |s| && forall i :: 0 <= i < |s| ==> bytes[i] as int == s[i] as int
  {
    seq(|s|, i requires 0 <= i < |s| => AsciiByte(s[i] as int))
  }
}
