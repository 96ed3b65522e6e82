/**
 * JavaScript's `encodeURIComponent` on ASCII text, and the matching
 * decoder. A URL's pathname is ASCII (the URL parser percent-encodes
 * everything else), so that is the only input the gate gives it.
 */
module UriComponent {
  import opened Models

  predicate IsAscii(s: string)
  {
    forall i :: 0 <= i < |s| ==> s[i] as int < 128
  }

  /** The characters left as they are: letters, digits and - _ . ! ~ * ' ( ). */
  predicate Unreserved(c: char)
  {
    ('A' <= c <= 'Z') || ('a' <= c <= 'z') || ('0' <= c <= '9')
    || c == '-' || c == '_' || c == '.' || c == '!' || c == '~' || c == '*' || c == '\'' || c == '(' || c == ')'
  }

  /** An upper-case hexadecimal digit. */
  function HexDigit(v: int): (c: char)
    requires 0 <= v < 16
    ensures HexVal(c) == v && Unreserved(c)
  {
    if v < 10 then ('0' as int + v) as char else ('A' as int + v - 10) as char
  }

  /** The value of a hexadecimal digit of either case, or -1. */
  function HexVal(c: char): (v: int)
    ensures -1 <= v < 16
  {
    if '0' <= c <= '9' then c as int - '0' as int
    else if 'A' <= c <= 'F' then c as int - 'A' as int + 10
    else if 'a' <= c <= 'f' then c as int - 'a' as int + 10
    else -1
  }

  /** "%" and two upper-case hexadecimal digits. */
  function Escape(c: char): string
    requires c as int < 128
  {
    ['%', HexDigit(c as int / 16), HexDigit(c as int % 16)]
  }

  function Encode(s: string): string
    requires IsAscii(s)
  {
    if s == [] then []
    else
      assert IsAscii(s[1..]) by {
        assert forall i :: 0 <= i < |s| - 1 ==> s[1..][i] == s[i + 1];
      }
      (if Unreserved(s[0]) then [s[0]] else Escape(s[0])) + Encode(s[1..])
  }

  /**
   * `decodeURIComponent` for ASCII escapes: "%" must be followed by two
   * hexadecimal digits naming a byte below 0x80.
   */
  function Decode(t: string): Option<string>
    decreases |t|
  {
    if t == [] then Some([])
    else if t[0] != '%' then
      match Decode(t[1..])
      case None => None
      case Some(rest) => Some([t[0]] + rest)
    else if |t| < 3 || HexVal(t[1]) < 0 || HexVal(t[2]) < 0 || HexVal(t[1]) >= 8 then None
    else
      match Decode(t[3..])
      case None => None
      case Some(rest) => Some([(HexVal(t[1]) * 16 + HexVal(t[2])) as char] + rest)
  }

  /** The encoding only ever holds unreserved characters and escapes, so no "&", "=", "#" or "/". */
  lemma {:induction false} EncodeIsSafe(s: string)
    requires IsAscii(s)
    ensures forall i :: 0 <= i < |Encode(s)| ==> Unreserved(Encode(s)[i]) || Encode(s)[i] == '%'
  {
    if s != [] {
      assert IsAscii(s[1..]) by {
        assert forall i :: 0 <= i < |s| - 1 ==> s[1..][i] == s[i + 1];
      }
      EncodeIsSafe(s[1..]);
    }
  }

  /** Decoding the encoding gives the text back. */
  lemma {:induction false} DecodeEncode(s: string)
    requires IsAscii(s)
    ensures Decode(Encode(s)) == Some(s)
  {
    if s != [] {
      assert IsAscii(s[1..]) by {
        assert forall i :: 0 <= i < |s| - 1 ==> s[1..][i] == s[i + 1];
      }
      DecodeEncode(s[1..]);
      if Unreserved(s[0]) {
        DecodeKept(s[0], Encode(s[1..]), s[1..]);
      } else {
        DecodeEscaped(s[0], Encode(s[1..]), s[1..]);
      }
      assert s == [s[0]] + s[1..];
    }
  }

  lemma DecodeKept(c: char, tail: string, rest: string)
    requires Unreserved(c) && Decode(tail) == Some(rest)
    ensures Decode([c] + tail) == Some([c] + rest)
  {
    assert ([c] + tail)[1..] == tail;
  }

  lemma DecodeEscaped(c: char, tail: string, rest: string)
    requires c as int < 128 && Decode(tail) == Some(rest)
    ensures Decode(Escape(c) + tail) == Some([c] + rest)
  {
    var hi, lo := c as int / 16, c as int % 16;
    var t := Escape(c) + tail;
    assert t[0] == '%' && HexVal(t[1]) == hi && HexVal(t[2]) == lo;
    assert t[3..] == tail;
    assert (hi * 16 + lo) as char == c;
  }

  /** A path's slashes are escaped. */
  lemma SlashEscaped()
    ensures Encode("/a") == "%2Fa"
  {
    assert Encode("a") == "a";
  }
}
