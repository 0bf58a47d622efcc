/**
 * Swift's `trimmingCharacters(in: .whitespacesAndNewlines)` on strings seen as
 * sequences of Unicode scalars.
 */
module Strings {

  /**
   * Membership in `CharacterSet.whitespacesAndNewlines`: the Unicode general
   * categories Zs, Zl and Zp, together with U+0009 to U+000D and U+0085.
   */
  predicate IsWhitespace(c: char) {
    || ('\t' <= c <= '\r')
    || c == ' '
    || c == '\U{0085}'
    || c == '\U{00A0}'
    || c == '\U{1680}'
    || ('\U{2000}' <= c <= '\U{200A}')
    || c == '\U{2028}'
    || c == '\U{2029}'
    || c == '\U{202F}'
    || c == '\U{205F}'
    || c == '\U{3000}'
  }

  predicate AllWhitespace(s: string) {
    forall i :: 0 <= i < |s| ==> IsWhitespace(s[i])
  }

  /** Neither end of `s` is whitespace: trimming has nothing left to remove. */
  predicate Trimmed(s: string) {
    s == [] || (!IsWhitespace(s[0]) && !IsWhitespace(s[|s| - 1]))
  }

  /** Drops the leading whitespace of `s`. */
  function TrimStart(s: string): string
    decreases |s|
  {
    if s != [] && IsWhitespace(s[0]) then TrimStart(s[1..]) else s
  }

  /** Drops the trailing whitespace of `s`. */
  function TrimEnd(s: string): string
    decreases |s|
  {
    if s != [] && IsWhitespace(s[|s| - 1]) then TrimEnd(s[..|s| - 1]) else s
  }

  /** TrimStart keeps a suffix of `s`, drops only whitespace, and stops at a non-whitespace character. */
  lemma {:induction false} TrimStartSpec(s: string)
    ensures var r := TrimStart(s);
      && |r| <= |s| && r == s[|s| - |r|..]
      && AllWhitespace(s[..|s| - |r|])
      && (r == [] || !IsWhitespace(r[0]))
    decreases |s|
  {
    if s != [] && IsWhitespace(s[0]) {
      var r := TrimStart(s[1..]);
      TrimStartSpec(s[1..]);
      assert s[1..][|s| - 1 - |r|..] == s[|s| - |r|..];
      assert s[..|s| - |r|] == [s[0]] + s[1..][..|s| - 1 - |r|];
    } else {
      assert s[|s| - |s|..] == s;
    }
  }

  /** TrimEnd keeps a prefix of `s`, drops only whitespace, and stops at a non-whitespace character. */
  lemma {:induction false} TrimEndSpec(s: string)
    ensures var r := TrimEnd(s);
      && |r| <= |s| && r == s[..|r|]
      && AllWhitespace(s[|r|..])
      && (r == [] || !IsWhitespace(r[|r| - 1]))
    decreases |s|
  {
    if s != [] && IsWhitespace(s[|s| - 1]) {
      var r := TrimEnd(s[..|s| - 1]);
      TrimEndSpec(s[..|s| - 1]);
      assert s[..|s| - 1][..|r|] == s[..|r|];
      assert s[|r|..] == s[..|s| - 1][|r|..] + [s[|s| - 1]];
    } else {
      assert s[..|s|] == s;
    }
  }

  /** `s.trimmingCharacters(in: .whitespacesAndNewlines)`. */
  function Trim(s: string): string {
    TrimEnd(TrimStart(s))
  }

  /** Whitespace in front of `s` makes no difference to TrimStart. */
  lemma {:induction false} TrimStartSkipsWhitespace(p: string, s: string)
    requires AllWhitespace(p)
    ensures TrimStart(p + s) == TrimStart(s)
    decreases |p|
  {
    if p != [] {
      var ps := p + s;
      assert ps[0] == p[0];
      assert ps[1..] == p[1..] + s;
      assert TrimStart(ps) == TrimStart(ps[1..]);
      AllWhitespaceTail(p);
      TrimStartSkipsWhitespace(p[1..], s);
    } else {
      assert p + s == s;
    }
  }

  lemma AllWhitespaceTail(p: string)
    requires p != [] && AllWhitespace(p)
    ensures AllWhitespace(p[1..]) && AllWhitespace(p[..|p| - 1])
  {
  }

  /** Whitespace behind `s` makes no difference to TrimEnd. */
  lemma {:induction false} TrimEndSkipsWhitespace(s: string, q: string)
    requires AllWhitespace(q)
    ensures TrimEnd(s + q) == TrimEnd(s)
    decreases |q|
  {
    if q != [] {
      var sq := s + q;
      var q' := q[..|q| - 1];
      assert sq[|sq| - 1] == q[|q| - 1];
      assert sq[..|sq| - 1] == s + q';
      assert TrimEnd(sq) == TrimEnd(sq[..|sq| - 1]);
      AllWhitespaceTail(q);
      TrimEndSkipsWhitespace(s, q');
    } else {
      assert s + q == s;
    }
  }

  /**
   * Trim removes exactly the whitespace around the core of a string: for any
   * split of `s` into whitespace, a core whose ends are not whitespace, and
   * whitespace, Trim returns that core.
   */
  lemma TrimCore(p: string, m: string, q: string)
    requires AllWhitespace(p) && AllWhitespace(q) && Trimmed(m)
    ensures Trim(p + m + q) == m
  {
    assert p + m + q == p + (m + q);
    TrimStartSkipsWhitespace(p, m + q);
    if m == [] {
      assert m + q == q + [];
      TrimStartSkipsWhitespace(q, []);
    } else {
      var mq := m + q;
      assert mq[0] == m[0];
      assert TrimStart(mq) == mq;
      TrimEndSkipsWhitespace(m, q);
    }
  }

  /** A string is left unchanged by Trim exactly when its ends are not whitespace. */
  lemma TrimFixesTrimmed(s: string)
    ensures Trim(s) == s <==> Trimmed(s)
  {
    if Trimmed(s) {
      TrimCore([], s, []);
      assert [] + s + [] == s;
    } else {
      TrimIsTrimmed(s);
    }
  }

  /** What Trim returns has no whitespace left at its ends. */
  lemma TrimIsTrimmed(s: string)
    ensures Trimmed(Trim(s))
  {
    var t := TrimStart(s);
    TrimStartSpec(s);
    TrimEndSpec(t);
    var r := TrimEnd(t);
    if r != [] {
      assert r[0] == t[0];
    }
  }

  /** Trimming twice is trimming once. */
  lemma TrimIdempotent(s: string)
    ensures Trim(Trim(s)) == Trim(s)
  {
    TrimIsTrimmed(s);
    TrimFixesTrimmed(Trim(s));
  }

  /** A string trims to nothing exactly when it is all whitespace. */
  lemma TrimEmpty(s: string)
    ensures Trim(s) == [] <==> AllWhitespace(s)
  {
    if AllWhitespace(s) {
      assert s + [] + [] == s;
      TrimCore(s, [], []);
    }
    if Trim(s) == [] {
      var t := TrimStart(s);
      TrimStartSpec(s);
      TrimEndSpec(t);
      assert t == [];
      assert s[..|s|] == s;
    }
  }
}
