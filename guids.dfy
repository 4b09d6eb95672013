/**
  GUIDs and their canonical text form: 32 lower-case hexadecimal digits in
  groups of 8-4-4-4-12 separated by hyphens (the "D" format that
  `Guid.ToString()` produces and `string.Format` uses).
 */
module Guids {
  import opened Wrappers

  /** The value of one hexadecimal digit. */
  type Nibble = x: int | 0 <= x < 16

  /** A 128-bit GUID, as its 32 hexadecimal digits in display order. */
  type Guid = s: seq<Nibble> | |s| == 32 witness seq(32, _ => 0)

  /** The lower-case hexadecimal digit for `n`. */
  function HexChar(n: Nibble): (c: char)
    ensures HexValue(c) == Some(n)
  {
    if n < 10 then ('0' as int + n) as char else ('a' as int + n - 10) as char
  }

  /** The value of a lower-case hexadecimal digit, or None for any other character. */
  function HexValue(c: char): Option<Nibble>
  {
    if '0' <= c <= '9' then Some(c as int - '0' as int)
    else if 'a' <= c <= 'f' then Some(c as int - 'a' as int + 10)
    else None
  }

  function Hex(ns: seq<Nibble>): (s: string)
    ensures |s| == |ns|
  {
    seq(|ns|, i requires 0 <= i < |ns| => HexChar(ns[i]))
  }

  /** Decodes a run of hexadecimal digits; None when any character is not one. */
  function Unhex(s: string): (r: Option<seq<Nibble>>)
    ensures r.Some? ==> |r.value| == |s|
  {
    if forall i :: 0 <= i < |s| ==> HexValue(s[i]).Some? then
      Some(seq(|s|, i requires 0 <= i < |s| => HexValue(s[i]).value))
    else
      None
  }

  /** `Guid.ToString()`: five hyphen-separated groups of 8, 4, 4, 4 and 12 digits. */
  function Format(g: Guid): (s: string)
    ensures |s| == 36
    ensures s[8] == '-' && s[13] == '-' && s[18] == '-' && s[23] == '-'
  {
    Hex(g[..8]) + "-" + Hex(g[8..12]) + "-" + Hex(g[12..16]) + "-" + Hex(g[16..20]) + "-" + Hex(g[20..])
  }

  /** Reads the "D" format back; None for any string that is not one. */
  function Parse(s: string): (r: Option<Guid>)
  {
    if |s| != 36 || s[8] != '-' || s[13] != '-' || s[18] != '-' || s[23] != '-' then None
    else
      match Unhex(s[..8] + s[9..13] + s[14..18] + s[19..23] + s[24..])
      case None => None
      case Some(digits) => Some(digits)
  }

  lemma UnhexHex(ns: seq<Nibble>)
    ensures Unhex(Hex(ns)) == Some(ns)
  {
    var s := Hex(ns);
    forall i | 0 <= i < |s| ensures HexValue(s[i]) == Some(ns[i]) {
    }
    var decoded := seq(|s|, i requires 0 <= i < |s| => HexValue(s[i]).value);
    assert decoded == ns;
  }

  /** Parsing the formatted text of a GUID gives the GUID back. */
  lemma ParseFormat(g: Guid)
    ensures Parse(Format(g)) == Some(g)
  {
    var s := Format(g);
    var digits := s[..8] + s[9..13] + s[14..18] + s[19..23] + s[24..];
    assert s[..8] == Hex(g[..8]);
    assert s[9..13] == Hex(g[8..12]);
    assert s[14..18] == Hex(g[12..16]);
    assert s[19..23] == Hex(g[16..20]);
    assert s[24..] == Hex(g[20..]);
    assert digits == Hex(g) by {
      forall i | 0 <= i < 32 ensures digits[i] == Hex(g)[i] {
      }
    }
    UnhexHex(g);
  }

  /** Distinct GUIDs have distinct text forms. */
  lemma FormatInjective(a: Guid, b: Guid)
    ensures Format(a) == Format(b) <==> a == b
  {
    if Format(a) == Format(b) {
      ParseFormat(a);
      ParseFormat(b);
    }
  }
}
