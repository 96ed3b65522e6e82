/**
 * The "base64url" encoding of section 5 of RFC 4648 without padding, as
 * Go's `base64.RawURLEncoding` applies it to the OAuth state. Strings stand
 * for byte strings here: each character is one byte.
 */
module Base64Url {
  import opened Models

  /** Each character is a byte. */
  predicate IsBytes(s: string)
  {
    forall i :: 0 <= i < |s| ==> s[i] as int < 256
  }

  /** The character of a 6-bit value: A-Z, a-z, 0-9, '-' and '_'. */
  function Sym(v: int): (c: char)
    requires 0 <= v < 64
    ensures Val(c) == v && c != '\r' && c != '\n'
  {
    if v < 26 then ('A' as int + v) as char
    else if v < 52 then ('a' as int + v - 26) as char
    else if v < 62 then ('0' as int + v - 52) as char
    else if v == 62 then '-'
    else '_'
  }

  /** The 6-bit value of an alphabet character, or -1 for any other character. */
  function Val(c: char): (v: int)
    ensures -1 <= v < 64
  {
    if 'A' <= c <= 'Z' then c as int - 'A' as int
    else if 'a' <= c <= 'z' then c as int - 'a' as int + 26
    else if '0' <= c <= '9' then c as int - '0' as int + 52
    else if c == '-' then 62
    else if c == '_' then 63
    else -1
  }

  /**
   * Each group of three bytes becomes four characters; a final group of two
   * becomes three and a final single byte two, the unused low bits zero.
   */
  function Encode(s: string): string
    requires IsBytes(s)
  {
    if |s| == 0 then ""
    else
      var b0 := s[0] as int;
      if |s| == 1 then Group(b0, 0, 0)[..2]
      else
        var b1 := s[1] as int;
        if |s| == 2 then Group(b0, b1, 0)[..3]
        else
          assert IsBytes(s[3..]) by {
            assert forall i :: 0 <= i < |s| - 3 ==> s[3..][i] == s[i + 3];
          }
          Group(b0, b1, s[2] as int) + Encode(s[3..])
  }

  /** Three bytes as four 6-bit values, high bits first. */
  function Group(b0: int, b1: int, b2: int): (t: string)
    requires 0 <= b0 < 256 && 0 <= b1 < 256 && 0 <= b2 < 256
    ensures |t| == 4
  {
    [Sym(b0 / 4), Sym(b0 % 4 * 16 + b1 / 16), Sym(b1 % 16 * 4 + b2 / 64), Sym(b2 % 64)]
  }

  /** The decoder skips carriage returns and line feeds. */
  function WithoutNewlines(t: string): string
  {
    if t == [] then []
    else (if t[0] == '\r' || t[0] == '\n' then [] else [t[0]]) + WithoutNewlines(t[1..])
  }

  /**
   * Four characters give three bytes, a final three give two and a final
   * two give one; a single character left over, or any character outside
   * the alphabet (padding included), is an error. Unused low bits of a
   * final group are ignored.
   */
  function DecodeGroups(t: string): (r: Option<string>)
    ensures r.Some? ==> IsBytes(r.value)
  {
    if |t| == 0 then Some("")
    else if |t| == 1 then None
    else
      var c0, c1 := Val(t[0]), Val(t[1]);
      if c0 < 0 || c1 < 0 then None
      else if |t| == 2 then Some([(c0 * 4 + c1 / 16) as char])
      else
        var c2 := Val(t[2]);
        if c2 < 0 then None
        else if |t| == 3 then Some([(c0 * 4 + c1 / 16) as char, (c1 % 16 * 16 + c2 / 4) as char])
        else
          var c3 := Val(t[3]);
          if c3 < 0 then None
          else match DecodeGroups(t[4..])
            case None => None
            case Some(rest) =>
              Some([(c0 * 4 + c1 / 16) as char, (c1 % 16 * 16 + c2 / 4) as char, (c2 % 4 * 64 + c3) as char] + rest)
  }

  function Decode(t: string): Option<string>
  {
    DecodeGroups(WithoutNewlines(t))
  }

  lemma {:induction false} NoNewlines(t: string)
    requires forall i :: 0 <= i < |t| ==> t[i] != '\r' && t[i] != '\n'
    ensures WithoutNewlines(t) == t
  {
    if t != [] {
      NoNewlines(t[1..]);
    }
  }

  /** The encoding uses the alphabet only, so it holds no line breaks. */
  lemma {:induction false} EncodeAlphabet(s: string)
    requires IsBytes(s)
    ensures forall i :: 0 <= i < |Encode(s)| ==> Val(Encode(s)[i]) >= 0 && Encode(s)[i] != '\r' && Encode(s)[i] != '\n'
  {
    if |s| >= 3 {
      assert IsBytes(s[3..]) by {
        assert forall i :: 0 <= i < |s| - 3 ==> s[3..][i] == s[i + 3];
      }
      EncodeAlphabet(s[3..]);
    }
  }

  lemma EncodeNonEmpty(s: string)
    requires IsBytes(s) && s != ""
    ensures Encode(s) != ""
  {
  }

  /** Decoding what was encoded gives the bytes back. */
  lemma DecodeEncode(s: string)
    requires IsBytes(s)
    ensures Decode(Encode(s)) == Some(s)
  {
    EncodeAlphabet(s);
    NoNewlines(Encode(s));
    DecodeGroupsEncode(s);
  }

  /** Splitting three bytes into four 6-bit values and joining them again gives the bytes back. */
  lemma Bits3(b0: int, b1: int, b2: int)
    requires 0 <= b0 < 256 && 0 <= b1 < 256 && 0 <= b2 < 256
    ensures var c0, c1, c2, c3 := b0 / 4, b0 % 4 * 16 + b1 / 16, b1 % 16 * 4 + b2 / 64, b2 % 64;
      c0 * 4 + c1 / 16 == b0 && c1 % 16 * 16 + c2 / 4 == b1 && c2 % 4 * 64 + c3 == b2
  {
  }

  lemma {:induction false} DecodeGroupsEncode(s: string)
    requires IsBytes(s)
    ensures DecodeGroups(Encode(s)) == Some(s)
  {
    if |s| == 1 {
      DecodeLast1(s);
    } else if |s| == 2 {
      DecodeLast2(s);
    } else if |s| >= 3 {
      assert IsBytes(s[3..]) by {
        assert forall i :: 0 <= i < |s| - 3 ==> s[3..][i] == s[i + 3];
      }
      DecodeGroupsEncode(s[3..]);
      DecodeGroup(s);
    }
  }

  /** How DecodeGroups reads a final two characters, a final three and a full group. */
  lemma DecodeTail2(t: string)
    requires |t| == 2 && Val(t[0]) >= 0 && Val(t[1]) >= 0
    ensures DecodeGroups(t) == Some([(Val(t[0]) * 4 + Val(t[1]) / 16) as char])
  {
  }

  lemma DecodeTail3(t: string)
    requires |t| == 3 && Val(t[0]) >= 0 && Val(t[1]) >= 0 && Val(t[2]) >= 0
    ensures DecodeGroups(t) ==
      Some([(Val(t[0]) * 4 + Val(t[1]) / 16) as char, (Val(t[1]) % 16 * 16 + Val(t[2]) / 4) as char])
  {
  }

  lemma DecodeHead4(t: string)
    requires |t| >= 4 && Val(t[0]) >= 0 && Val(t[1]) >= 0 && Val(t[2]) >= 0 && Val(t[3]) >= 0
    requires DecodeGroups(t[4..]).Some?
    ensures DecodeGroups(t) ==
      Some([(Val(t[0]) * 4 + Val(t[1]) / 16) as char, (Val(t[1]) % 16 * 16 + Val(t[2]) / 4) as char,
            (Val(t[2]) % 4 * 64 + Val(t[3])) as char] + DecodeGroups(t[4..]).value)
  {
  }

  /** The characters of a group decode to its bytes, whatever follows them. */
  lemma GroupDecodes(b0: int, b1: int, b2: int, tail: string)
    requires 0 <= b0 < 256 && 0 <= b1 < 256 && 0 <= b2 < 256
    ensures var t := Group(b0, b1, b2) + tail;
      Val(t[0]) * 4 + Val(t[1]) / 16 == b0 && Val(t[1]) % 16 * 16 + Val(t[2]) / 4 == b1
      && Val(t[2]) % 4 * 64 + Val(t[3]) == b2
      && Val(t[0]) >= 0 && Val(t[1]) >= 0 && Val(t[2]) >= 0 && Val(t[3]) >= 0 && t[4..] == tail
  {
    Bits3(b0, b1, b2);
  }

  /** A final single byte: two characters decode to it. */
  lemma DecodeLast1(s: string)
    requires IsBytes(s) && |s| == 1
    ensures DecodeGroups(Encode(s)) == Some(s)
  {
    var b0 := s[0] as int;
    var t := Encode(s);
    GroupDecodes(b0, 0, 0, []);
    assert t == (Group(b0, 0, 0) + [])[..2];
    DecodeTail2(t);
    assert [(b0 as char)] == s;
  }

  /** A final pair of bytes: three characters decode to them. */
  lemma DecodeLast2(s: string)
    requires IsBytes(s) && |s| == 2
    ensures DecodeGroups(Encode(s)) == Some(s)
  {
    var b0, b1 := s[0] as int, s[1] as int;
    var t := Encode(s);
    var g := Group(b0, b1, 0);
    GroupDecodes(b0, b1, 0, []);
    assert g + [] == g;
    assert t == g[..3];
    assert t[0] == g[0] && t[1] == g[1] && t[2] == g[2];
    DecodeTail3(t);
    assert [b0 as char, b1 as char] == s;
  }

  /** A full group: its four characters decode to its three bytes, ahead of the rest. */
  lemma DecodeGroup(s: string)
    requires IsBytes(s) && |s| >= 3 && IsBytes(s[3..])
    requires DecodeGroups(Encode(s[3..])) == Some(s[3..])
    ensures DecodeGroups(Encode(s)) == Some(s)
  {
    var b0, b1, b2 := s[0] as int, s[1] as int, s[2] as int;
    assert Encode(s) == Group(b0, b1, b2) + Encode(s[3..]);
    GroupThen(b0, b1, b2, Encode(s[3..]), s[3..]);
    assert b0 as char == s[0] && b1 as char == s[1] && b2 as char == s[2];
    Split3(s);
  }

  lemma Split3(s: string)
    requires |s| >= 3
    ensures s == [s[0], s[1], s[2]] + s[3..]
  {
  }

  lemma GroupThen(b0: int, b1: int, b2: int, tail: string, rest: string)
    requires 0 <= b0 < 256 && 0 <= b1 < 256 && 0 <= b2 < 256
    requires DecodeGroups(tail) == Some(rest)
    ensures DecodeGroups(Group(b0, b1, b2) + tail) == Some([b0 as char, b1 as char, b2 as char] + rest)
  {
    GroupDecodes(b0, b1, b2, tail);
    DecodeHead4(Group(b0, b1, b2) + tail);
  }

  /** Skipping line breaks keeps every other character. */
  lemma {:induction false} WithoutNewlinesKeeps(t: string, i: int)
    requires 0 <= i < |t| && t[i] != '\r' && t[i] != '\n'
    ensures t[i] in WithoutNewlines(t)
  {
    if i > 0 {
      assert t[1..][i - 1] == t[i];
      WithoutNewlinesKeeps(t[1..], i - 1);
    }
  }

  /** A character outside the alphabet anywhere in the text makes the groups fail. */
  lemma {:induction false} DecodeGroupsRefuses(u: string, c: char)
    requires c in u && Val(c) < 0
    ensures DecodeGroups(u).None?
    decreases |u|
  {
    var j :| 0 <= j < |u| && u[j] == c;
    if |u| >= 4 && j >= 4 {
      assert u[4..][j - 4] == c;
      DecodeGroupsRefuses(u[4..], c);
    }
  }

  /** Any character outside the alphabet other than a line break, padding included, is refused. */
  lemma DecodeRefusesOutsideAlphabet(t: string, i: int)
    requires 0 <= i < |t| && Val(t[i]) < 0 && t[i] != '\r' && t[i] != '\n'
    ensures Decode(t).None?
  {
    WithoutNewlinesKeeps(t, i);
    DecodeGroupsRefuses(WithoutNewlines(t), t[i]);
  }

  /** For example, padded "QQ==" is refused. */
  lemma DecodeRefusesPadding()
    ensures Decode("QQ==").None?
  {
    assert Val("QQ=="[2]) < 0;
    DecodeRefusesOutsideAlphabet("QQ==", 2);
  }

  /** For example, a lone trailing character is refused, and two characters make one byte. */
  lemma DecodeTailLength()
    ensures Decode("Q").None?
    ensures Decode("QQ") == Some("A")
  {
    NoNewlines("Q");
    NoNewlines("QQ");
    DecodeTail2("QQ");
  }
}
