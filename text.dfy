/**
 * String helpers of the Go code: the in-memory engine's ASCII `toLower` and
 * byte-wise `contains` (memory.go), Go's `strings.TrimSpace`, `HasPrefix`,
 * `Fields`, and the relational engine's SQL `LIKE` matching.
 *
 * `strings.ToLower` of the Go library, used by the handlers and by the
 * relational engine, is modelled by the same ASCII folding (see README).
 */
module Text {

  function LowerChar(c: char): char
  {
    if 'A' <= c <= 'Z' then (c as int + 32) as char else c
  }

  function UpperChar(c: char): char
  {
    if 'a' <= c <= 'z' then (c as int - 32) as char else c
  }

  /** `s` with exactly the letters 'A'..'Z' folded to lower case. */
  function Lower(s: string): string
  {
    seq(|s|, i requires 0 <= i < |s| => LowerChar(s[i]))
  }

  /** toLower (memory.go): rewrites a copy of the bytes in place. */
  method ToLower(s: string) returns (r: string)
    ensures r == Lower(s)
  {
    var bs := new char[|s|](i requires 0 <= i < |s| => s[i]);
    var i := 0;
    while i < bs.Length
      invariant 0 <= i <= bs.Length
      invariant forall k :: 0 <= k < i ==> bs[k] == LowerChar(s[k])
      invariant forall k :: i <= k < bs.Length ==> bs[k] == s[k]
    {
      var b := bs[i];
      if 'A' <= b && b <= 'Z' {
        bs[i] := (b as int + 32) as char;
      }
      i := i + 1;
    }
    r := bs[..];
  }

  /** Folding is idempotent and changes nothing but 'A'..'Z'. */
  lemma LowerIdempotent(s: string)
    ensures Lower(Lower(s)) == Lower(s)
    ensures forall i :: 0 <= i < |s| && !('A' <= s[i] <= 'Z') ==> Lower(s)[i] == s[i]
  {
  }

  predicate OccursAt(sub: string, s: string, k: int)
  {
    0 <= k && k + |sub| <= |s| && s[k..k + |sub|] == sub
  }

  predicate IsSubstring(sub: string, s: string)
  {
    exists k :: 0 <= k <= |s| && OccursAt(sub, s, k)
  }

  /** A string holding a character that `s` lacks is no substring of `s`. */
  lemma MissingCharNotSubstring(sub: string, s: string, i: int)
    requires 0 <= i < |sub| && forall j :: 0 <= j < |s| ==> s[j] != sub[i]
    ensures !IsSubstring(sub, s)
  {
    forall k | 0 <= k <= |s| ensures !OccursAt(sub, s, k) {
      if k + |sub| <= |s| {
        assert s[k..k + |sub|][i] == s[k + i];
      }
    }
  }

  /** contains (memory.go): the empty string is contained in every string. */
  method Contains(s: string, sub: string) returns (b: bool)
    ensures b == IsSubstring(sub, s)
  {
    if |sub| == 0 {
      assert OccursAt(sub, s, 0);
      return true;
    }
    var i := 0;
    while i + |sub| <= |s|
      invariant 0 <= i
      invariant forall k :: 0 <= k < i ==> !OccursAt(sub, s, k)
    {
      if s[i..i + |sub|] == sub {
        assert OccursAt(sub, s, i);
        return true;
      }
      i := i + 1;
    }
    return false;
  }

  /** containsFold (memory.go): substring test after ASCII folding of both sides. */
  method ContainsFold(s: string, sub: string) returns (b: bool)
    ensures b == IsSubstring(Lower(sub), Lower(s))
  {
    var ls := ToLower(s);
    var lsub := ToLower(sub);
    b := Contains(ls, lsub);
  }

  /** A search for "ABC" finds the SKU "abc-123". */
  lemma FoldedSearchExample()
    ensures IsSubstring(Lower("ABC"), Lower("abc-123"))
    ensures !IsSubstring("ABC", "abc-123")
  {
    assert Lower("ABC") == "abc";
    assert Lower("abc-123") == "abc-123";
    assert OccursAt("abc", "abc-123", 0);
    MissingCharNotSubstring("ABC", "abc-123", 0);
  }

  // ----- Go's strings.TrimSpace, HasPrefix and Fields -----

  /** unicode.IsSpace: the Latin-1 spaces and the other White_Space runes. */
  predicate IsSpace(c: char)
  {
    c == '\t' || c == '\n' || c == '\U{000B}' || c == '\U{000C}' || c == '\r' || c == ' '
    || c == '\U{0085}' || c == '\U{00A0}' || c == '\U{1680}'
    || ('\U{2000}' <= c <= '\U{200A}')
    || c == '\U{2028}' || c == '\U{2029}' || c == '\U{202F}' || c == '\U{205F}' || c == '\U{3000}'
  }

  predicate AllSpace(s: string)
  {
    forall i :: 0 <= i < |s| ==> IsSpace(s[i])
  }

  function TrimLeft(s: string): string
  {
    if s != [] && IsSpace(s[0]) then TrimLeft(s[1..]) else s
  }

  function TrimRight(s: string): string
  {
    if s != [] && IsSpace(s[|s| - 1]) then TrimRight(s[..|s| - 1]) else s
  }

  function TrimSpace(s: string): string
  {
    TrimRight(TrimLeft(s))
  }

  lemma {:induction false} TrimLeftShape(s: string)
    ensures var t := TrimLeft(s);
      |t| <= |s| && t == s[|s| - |t|..] && AllSpace(s[..|s| - |t|])
      && (t == [] || !IsSpace(t[0]))
  {
    if s != [] && IsSpace(s[0]) {
      TrimLeftShape(s[1..]);
      var t := TrimLeft(s[1..]);
      assert s[1..][|s| - 1 - |t|..] == s[|s| - |t|..];
      var pre := s[..|s| - |t|];
      forall i | 0 <= i < |pre| ensures IsSpace(pre[i]) {
        if i > 0 { assert pre[i] == s[1..][..|s| - 1 - |t|][i - 1]; }
      }
    }
  }

  lemma {:induction false} TrimRightShape(s: string)
    ensures var t := TrimRight(s);
      |t| <= |s| && t == s[..|t|] && AllSpace(s[|t|..])
      && (t == [] || !IsSpace(t[|t| - 1]))
  {
    if s != [] && IsSpace(s[|s| - 1]) {
      var s' := s[..|s| - 1];
      TrimRightShape(s');
      var t := TrimRight(s');
      assert s'[..|t|] == s[..|t|];
      forall i | 0 <= i < |s| - |t| ensures IsSpace(s[|t|..][i]) {
        if i < |s'| - |t| { assert s[|t|..][i] == s'[|t|..][i]; }
      }
    }
  }

  /**
   * TrimSpace removes exactly the leading and trailing white space: the result
   * is a slice of the input, surrounded only by spaces, that neither begins nor
   * ends with one.
   */
  lemma TrimSpaceShape(s: string)
    ensures var t := TrimSpace(s);
      exists i :: 0 <= i <= |s| - |t| && t == s[i..i + |t|]
        && AllSpace(s[..i]) && AllSpace(s[i + |t|..])
    ensures var t := TrimSpace(s);
      t == [] || (!IsSpace(t[0]) && !IsSpace(t[|t| - 1]))
  {
    var l := TrimLeft(s);
    TrimLeftShape(s);
    TrimRightShape(l);
    var t := TrimRight(l);
    var i := |s| - |l|;
    assert t == s[i..i + |t|];
    assert s[i + |t|..] == l[|t|..];
  }

  /** A string trims to "" exactly when it is all white space. */
  lemma {:induction false} TrimSpaceEmpty(s: string)
    ensures TrimSpace(s) == [] <==> AllSpace(s)
  {
    TrimLeftShape(s);
    var l := TrimLeft(s);
    TrimRightShape(l);
    assert l != [] ==> l[0] == s[|s| - |l|];
    if TrimSpace(s) == [] {
      assert l[0..] == l;
      assert l == [];
      assert s[..|s| - |l|] == s;
    }
  }

  lemma {:induction false} TrimLeftNoOp(s: string)
    requires s == [] || !IsSpace(s[0])
    ensures TrimLeft(s) == s
  {
  }

  lemma {:induction false} TrimRightNoOp(s: string)
    requires s == [] || !IsSpace(s[|s| - 1])
    ensures TrimRight(s) == s
  {
  }

  /** Trimming twice is trimming once. */
  lemma TrimSpaceIdempotent(s: string)
    ensures TrimSpace(TrimSpace(s)) == TrimSpace(s)
  {
    TrimSpaceShape(s);
    var t := TrimSpace(s);
    TrimLeftNoOp(t);
    TrimRightNoOp(t);
  }

  predicate HasPrefix(s: string, prefix: string)
  {
    |prefix| <= |s| && s[..|prefix|] == prefix
  }

  /** The longest prefix of `s` without white space. */
  function Word(s: string): (w: string)
    ensures |w| <= |s| && w == s[..|w|]
    ensures forall i :: 0 <= i < |w| ==> !IsSpace(w[i])
    ensures |w| < |s| ==> IsSpace(s[|w|])
  {
    if s == [] || IsSpace(s[0]) then [] else [s[0]] + Word(s[1..])
  }

  /** A non-empty run of characters none of which is white space. */
  predicate IsWord(w: string)
  {
    w != [] && forall i :: 0 <= i < |w| ==> !IsSpace(w[i])
  }

  /**
   * strings.Fields: the maximal runs of non-space characters, in order. There
   * are none exactly when the text is all white space.
   */
  function Fields(s: string): (ws: seq<string>)
    ensures ws == [] <==> AllSpace(s)
    ensures forall i :: 0 <= i < |ws| ==> IsWord(ws[i])
    decreases |s|
  {
    TrimLeftShape(s);
    var t := TrimLeft(s);
    if t == [] then
      assert s[..|s|] == s;
      []
    else
      var w := Word(t);
      assert s[|s| - |t|] == t[0];
      [w] + Fields(t[|w|..])
  }

  /** `seps[0] + ws[0] + seps[1] + ... + ws[n - 1] + seps[n]`. */
  function Interleave(seps: seq<string>, ws: seq<string>): string
    requires |seps| == |ws| + 1
    decreases |ws|
  {
    if ws == [] then seps[0] else seps[0] + ws[0] + Interleave(seps[1..], ws[1..])
  }

  /**
   * `s` is the words `ws`, in order, with white space before, after and
   * between them, and at least one white-space character between each two.
   */
  predicate SplitsInto(s: string, seps: seq<string>, ws: seq<string>)
  {
    |seps| == |ws| + 1
    && (forall i :: 0 <= i < |seps| ==> AllSpace(seps[i]))
    && (forall i :: 0 < i < |ws| ==> seps[i] != [])
    && (forall i :: 0 <= i < |ws| ==> IsWord(ws[i]))
    && s == Interleave(seps, ws)
  }

  /** A text that begins with white space puts some before its first word. */
  lemma LeadingSpaceSeparates(s: string, seps: seq<string>, ws: seq<string>)
    requires SplitsInto(s, seps, ws) && ws != [] && s != [] && IsSpace(s[0])
    ensures seps[0] != []
  {
  }

  /** Fields splits the text into its words at its white-space runs, so each word is a maximal run. */
  lemma {:induction false} FieldsSplits(s: string)
    ensures exists seps :: SplitsInto(s, seps, Fields(s))
    decreases |s|
  {
    TrimLeftShape(s);
    var t := TrimLeft(s);
    var pre := s[..|s| - |t|];
    assert s == pre + t;
    if t == [] {
      assert s == pre && Fields(s) == [];
      assert SplitsInto(s, [s], []);
    } else {
      var rest := t[|Word(t)|..];
      FieldsSplits(rest);
      var seps' :| SplitsInto(rest, seps', Fields(rest));
      SplitsPrepend(pre, t, seps', Fields(rest));
      assert SplitsInto(s, [pre] + seps', Fields(s));
    }
  }

  /**
   * White space, then a text `t` that begins with a word: when what follows
   * that word splits, the whole splits, with the word first.
   */
  lemma SplitsPrepend(pre: string, t: string, seps: seq<string>, ws: seq<string>)
    requires AllSpace(pre) && t != [] && !IsSpace(t[0])
    requires SplitsInto(t[|Word(t)|..], seps, ws)
    ensures SplitsInto(pre + t, [pre] + seps, [Word(t)] + ws)
  {
    var w := Word(t);
    var rest := t[|w|..];
    assert t == w + rest;
    assert rest != [] ==> rest[0] == t[|w|];
    var seps2, ws2 := [pre] + seps, [w] + ws;
    if ws != [] {
      LeadingSpaceSeparates(rest, seps, ws);
    }
    assert seps2[1..] == seps && ws2[1..] == ws;
    forall i | 0 <= i < |seps2| ensures AllSpace(seps2[i]) {
      if i > 0 { assert seps2[i] == seps[i - 1]; }
    }
    forall i | 0 < i < |ws2| ensures seps2[i] != [] {
      assert seps2[i] == seps[i - 1];
    }
  }

  /** The words with one space between each two. */
  function JoinSpace(ws: seq<string>): string
  {
    if ws == [] then [] else if |ws| == 1 then ws[0] else ws[0] + " " + JoinSpace(ws[1..])
  }

  lemma {:induction false} WordOf(w: string, rest: string)
    requires forall i :: 0 <= i < |w| ==> !IsSpace(w[i])
    requires rest == [] || IsSpace(rest[0])
    ensures Word(w + rest) == w
    decreases |w|
  {
    if w == [] {
      assert w + rest == rest;
    } else {
      assert (w + rest)[1..] == w[1..] + rest;
      WordOf(w[1..], rest);
    }
  }

  /** Fields takes words joined by single spaces back apart. */
  lemma {:induction false} FieldsJoin(ws: seq<string>)
    requires forall i :: 0 <= i < |ws| ==> IsWord(ws[i])
    ensures Fields(JoinSpace(ws)) == ws
    decreases |ws|
  {
    if ws != [] {
      var s := JoinSpace(ws);
      var w := ws[0];
      var rest := if |ws| == 1 then [] else " " + JoinSpace(ws[1..]);
      assert s == w + rest;
      TrimLeftNoOp(s);
      WordOf(w, rest);
      assert s[|w|..] == rest;
      if |ws| > 1 {
        FieldsJoin(ws[1..]);
        assert rest[1..] == JoinSpace(ws[1..]);
        assert TrimLeft(rest) == TrimLeft(JoinSpace(ws[1..]));
      }
    }
  }

  // ----- SQL LIKE, as the relational engine evaluates `col LIKE pattern` -----

  /**
   * `%` matches any run of characters, `_` any one character, and a backslash
   * makes the character after it literal (MySQL's default escape character).
   */
  predicate Like(p: string, s: string)
    decreases |p| + |s|
  {
    if p == [] then s == []
    else if p[0] == '%' then Like(p[1..], s) || (s != [] && Like(p, s[1..]))
    else if p[0] == '_' then s != [] && Like(p[1..], s[1..])
    else if p[0] == '\\' && |p| >= 2 then s != [] && s[0] == p[1] && Like(p[2..], s[1..])
    else s != [] && s[0] == p[0] && Like(p[1..], s[1..])
  }

  predicate NoWildcards(q: string)
  {
    forall i :: 0 <= i < |q| ==> q[i] != '%' && q[i] != '_' && q[i] != '\\'
  }

  lemma {:induction false} PercentMatchesAll(s: string)
    ensures Like("%", s)
  {
    if s != [] {
      PercentMatchesAll(s[1..]);
    }
  }

  lemma {:induction false} LiteralThenPercent(q: string, s: string)
    requires NoWildcards(q)
    ensures Like(q + "%", s) <==> HasPrefix(s, q)
  {
    if q == [] {
      assert q + "%" == "%";
      PercentMatchesAll(s);
    } else {
      assert (q + "%")[1..] == q[1..] + "%";
      if s != [] {
        LiteralThenPercent(q[1..], s[1..]);
        if HasPrefix(s, q) {
          assert s[1..][..|q| - 1] == s[..|q|][1..];
        }
        if HasPrefix(s[1..], q[1..]) && s[0] == q[0] {
          assert s[..|q|] == [s[0]] + s[1..][..|q| - 1];
        }
      }
    }
  }

  lemma {:induction false} LeadingPercent(t: string, s: string)
    ensures Like("%" + t, s) <==> exists i :: 0 <= i <= |s| && Like(t, s[i..])
  {
    var p := "%" + t;
    assert p[1..] == t;
    if s == [] {
      assert s[0..] == s;
    } else {
      LeadingPercent(t, s[1..]);
      assert s[0..] == s;
      if exists i :: 0 <= i <= |s| && Like(t, s[i..]) {
        var i :| 0 <= i <= |s| && Like(t, s[i..]);
        if i > 0 { assert s[1..][i - 1..] == s[i..]; }
      }
      if exists i :: 0 <= i <= |s[1..]| && Like(t, s[1..][i..]) {
        var i :| 0 <= i <= |s[1..]| && Like(t, s[1..][i..]);
        assert s[1..][i..] == s[i + 1..];
      }
    }
  }

  /**
   * The relational engine's pattern `%q%` agrees with the in-memory substring
   * test whenever the query holds no `%`, `_` or backslash.
   */
  lemma LikeAgreesWithSubstring(q: string, s: string)
    requires NoWildcards(q)
    ensures Like("%" + q + "%", s) <==> IsSubstring(q, s)
  {
    assert "%" + q + "%" == "%" + (q + "%");
    LeadingPercent(q + "%", s);
    if IsSubstring(q, s) {
      var k :| 0 <= k <= |s| && OccursAt(q, s, k);
      LiteralThenPercent(q, s[k..]);
      assert s[k..][..|q|] == s[k..k + |q|];
    }
    if Like("%" + q + "%", s) {
      var i :| 0 <= i <= |s| && Like(q + "%", s[i..]);
      LiteralThenPercent(q, s[i..]);
      assert s[i..][..|q|] == s[i..i + |q|];
      assert OccursAt(q, s, i);
    }
  }

  /** An underscore in the query is a wildcard: "a_c" finds "abc" through LIKE only. */
  lemma UnderscoreIsWildcard()
    ensures Like("%a_c%", "abc")
    ensures !IsSubstring("a_c", "abc")
  {
    PercentMatchesAll("");
    assert Like("%", "");
    assert Like("c%", "c");
    assert Like("_c%", "bc");
    assert Like("a_c%", "abc");
    assert "%a_c%"[1..] == "a_c%";
    MissingCharNotSubstring("a_c", "abc", 1);
  }
}
