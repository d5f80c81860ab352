/** The text pieces of the printed C array: a byte as `0x%02x,` and the file
    name the header comment shows. */
module Format {
  import opened Results

  /** Lower-case hexadecimal digit for a value in 0..15. */
  function HexDigit(d: nat): char
    requires d < 16
  {
    if d < 10 then (48 + d) as char else (97 + d - 10) as char
  }

  predicate IsHexDigit(c: char)
  {
    '0' <= c <= '9' || 'a' <= c <= 'f'
  }

  /** Value of a lower-case hexadecimal digit. */
  function HexValue(c: char): nat
    requires IsHexDigit(c)
  {
    if c <= '9' then c as nat - 48 else c as nat - 97 + 10
  }

  /** `'0x%02x,' % byte` for a byte in 0..255: "0x", exactly two lower-case
      hex digits, most significant first, and a comma. */
  function HexByte(byte: nat): (s: string)
    requires byte < 256
    ensures |s| == 5 && s[0] == '0' && s[1] == 'x' && s[4] == ','
    ensures IsHexDigit(s[2]) && IsHexDigit(s[3])
    ensures HexValue(s[2]) * 16 + HexValue(s[3]) == byte
  {
    "0x" + [HexDigit(byte / 16), HexDigit(byte % 16)] + ","
  }

  /** The two tokens a uniform image prints. */
  lemma HexByteExtremes()
    ensures HexByte(255) == "0xff," && HexByte(0) == "0x00,"
  {
  }

  /** Reads one `0xhh,` token back; anything else is None. */
  function ParseHexByte(s: string): (r: Option<nat>)
    ensures r.Some? ==> r.value < 256
  {
    if |s| == 5 && s[0] == '0' && s[1] == 'x' && s[4] == ',' && IsHexDigit(s[2]) && IsHexDigit(s[3])
    then Some(HexValue(s[2]) * 16 + HexValue(s[3]))
    else None
  }

  /** Every byte's token reads back as that byte. */
  lemma ParseHexByteRoundTrip(byte: nat)
    requires byte < 256
    ensures ParseHexByte(HexByte(byte)) == Some(byte)
  {
  }

  /** The token format is canonical: a token that reads back as a byte is the
      token that byte prints as (so no upper-case digits, no other width). */
  lemma {:induction false} HexByteCanonical(s: string)
    requires ParseHexByte(s).Some?
    ensures HexByte(ParseHexByte(s).value) == s
  {
    var b := ParseHexByte(s).value;
    var hi, lo := HexValue(s[2]), HexValue(s[3]);
    assert b / 16 == hi && b % 16 == lo;
    assert HexDigit(hi) == s[2] && HexDigit(lo) == s[3];
    assert HexByte(b) == ['0', 'x', s[2], s[3], ','];
  }

  /** `os.path.basename` on a POSIX path: the text after the last '/'. */
  function Basename(path: string): (name: string)
    ensures |name| <= |path| && name == path[|path| - |name|..]
    ensures forall i :: 0 <= i < |name| ==> name[i] != '/'
    ensures |name| < |path| ==> path[|path| - |name| - 1] == '/'
  {
    if |path| == 0 || path[|path| - 1] == '/' then ""
    else Basename(path[..|path| - 1]) + [path[|path| - 1]]
  }
}
