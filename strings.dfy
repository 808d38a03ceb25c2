/** The two string operations of `String.prototype` that the calculator relies on:
    `trim()` and `replace(pattern, '')` with a string pattern. */
module Strings {

  import opened Wrappers

  /** The ECMAScript WhiteSpace and LineTerminator code points, the set that
      `trim()` (and the leading-space skip of `parseFloat`) removes. */
  predicate IsWhitespace(c: char)
  {
    var n := c as int;
    if n <= 0x20 then n == 0x20 || 0x09 <= n <= 0x0D
    else if n < 0xA0 then false
    else (n == 0xA0 || n == 0x1680 || (0x2000 <= n <= 0x200A)
          || n == 0x2028 || n == 0x2029 || n == 0x202F || n == 0x205F
          || n == 0x3000 || n == 0xFEFF)
  }

  /** Every character of `w` is whitespace. */
  predicate AllWhitespace(w: string)
  {
    forall k :: 0 <= k < |w| ==> IsWhitespace(w[k])
  }

  /** Neither end of `s` is whitespace: `trim()` leaves such a string alone. */
  predicate Unpadded(s: string)
  {
    s == [] || (!IsWhitespace(s[0]) && !IsWhitespace(s[|s| - 1]))
  }

  /** `s` with its leading whitespace removed. */
  function TrimStart(s: string): string
  {
    if |s| > 0 && IsWhitespace(s[0]) then TrimStart(s[1..]) else s
  }

  /** `s` with its trailing whitespace removed. */
  function TrimEnd(s: string): string
  {
    if |s| > 0 && IsWhitespace(s[|s| - 1]) then TrimEnd(s[..|s| - 1]) else s
  }

  /** TrimStart keeps a suffix of `s` that does not start with whitespace and
      drops only whitespace. */
  lemma {:induction false} TrimStartSpec(s: string)
    ensures var r := TrimStart(s);
      |r| <= |s| && r == s[|s| - |r|..] && AllWhitespace(s[..|s| - |r|])
      && (r != [] ==> !IsWhitespace(r[0]))
  {
    if |s| > 0 && IsWhitespace(s[0]) {
      TrimStartSpec(s[1..]);
      var r := TrimStart(s);
      assert s[..|s| - |r|] == [s[0]] + s[1..][..|s| - 1 - |r|];
    }
  }

  /** TrimEnd keeps a prefix of `s` that does not end with whitespace and drops
      only whitespace. */
  lemma {:induction false} TrimEndSpec(s: string)
    ensures var r := TrimEnd(s);
      |r| <= |s| && r == s[..|r|] && AllWhitespace(s[|r|..])
      && (r != [] ==> !IsWhitespace(r[|r| - 1]))
  {
    if |s| > 0 && IsWhitespace(s[|s| - 1]) {
      TrimEndSpec(s[..|s| - 1]);
      var r := TrimEnd(s);
      assert s[|r|..] == s[..|s| - 1][|r|..] + [s[|s| - 1]];
    }
  }

  /** `s` is `core` with the whitespace `w1` in front and `w2` behind. */
  predicate PaddedWith(s: string, w1: string, core: string, w2: string)
  {
    AllWhitespace(w1) && AllWhitespace(w2) && s == w1 + core + w2
  }

  /** `s.trim()`. */
  function Trim(s: string): string
  {
    TrimEnd(TrimStart(s))
  }

  /** `s.trim()` is what is left once whitespace is removed from both ends: it has
      no whitespace at either end, and `s` is it with whitespace on either side. */
  lemma TrimSpec(s: string)
    ensures Unpadded(Trim(s))
    ensures exists w1, w2 :: PaddedWith(s, w1, Trim(s), w2)
  {
    TrimSplits(s);
    TrimLeavesUnpadded(s);
  }

  /** A string is its prefix of length `n` followed by the rest. */
  lemma Rejoin(s: string, n: nat)
    requires n <= |s|
    ensures s == s[..n] + s[n..]
  {
  }

  /** What TrimStart and TrimEnd remove, put together. */
  lemma TrimSplits(s: string)
    ensures var t := TrimStart(s); var r := TrimEnd(t);
      |t| <= |s| && |r| <= |t| && PaddedWith(s, s[..|s| - |t|], r, t[|r|..])
  {
    TrimStartSpec(s);
    var t := TrimStart(s);
    TrimEndSpec(t);
    var r := TrimEnd(t);
    Rejoin(s, |s| - |t|);
    Rejoin(t, |r|);
  }

  /** What TrimStart and TrimEnd leave: neither end is whitespace. */
  lemma TrimLeavesUnpadded(s: string)
    ensures Unpadded(TrimEnd(TrimStart(s)))
  {
    TrimStartSpec(s);
    var t := TrimStart(s);
    TrimEndSpec(t);
    var r := TrimEnd(t);
    assert r != [] ==> r[0] == t[0];
  }

  /** Leading whitespace in front of a string that does not start with it is
      exactly what `TrimStart` removes. */
  lemma {:induction false} TrimStartPadded(w: string, x: string)
    requires AllWhitespace(w)
    requires x == [] || !IsWhitespace(x[0])
    ensures TrimStart(w + x) == x
  {
    if w != [] {
      assert (w + x)[1..] == w[1..] + x;
      TrimStartPadded(w[1..], x);
    } else {
      assert w + x == x;
    }
  }

  /** Whitespace in front of any string is skipped by `TrimStart`. */
  lemma {:induction false} TrimStartAfterWhitespace(w: string, s: string)
    requires AllWhitespace(w)
    ensures TrimStart(w + s) == TrimStart(s)
  {
    if w != [] {
      assert (w + s)[1..] == w[1..] + s;
      TrimStartAfterWhitespace(w[1..], s);
    } else {
      assert w + s == s;
    }
  }

  /** Trailing whitespace behind a string that does not end with it is exactly
      what `TrimEnd` removes. */
  lemma {:induction false} TrimEndPadded(x: string, w: string)
    requires AllWhitespace(w)
    requires x == [] || !IsWhitespace(x[|x| - 1])
    ensures TrimEnd(x + w) == x
  {
    if w != [] {
      assert (x + w)[..|x + w| - 1] == x + w[..|w| - 1];
      TrimEndPadded(x, w[..|w| - 1]);
    } else {
      assert x + w == x;
    }
  }

  /** Whitespace padding on either side is exactly what `trim()` takes away; with
      the postcondition of Trim this makes `Trim(s)` the one unpadded core of `s`. */
  lemma TrimPadded(w1: string, t: string, w2: string)
    requires AllWhitespace(w1) && AllWhitespace(w2) && Unpadded(t)
    ensures Trim(w1 + t + w2) == t
  {
    var s := w1 + t + w2;
    assert s == w1 + (t + w2);
    if t == [] {
      assert t + w2 == w2;
      assert w1 + w2 == w1 + [] + w2;
      TrimStartPadded(w1 + w2, []);
      assert w1 + w2 + [] == w1 + w2;
      assert AllWhitespace(w1 + w2) by {
        forall k | 0 <= k < |w1 + w2| ensures IsWhitespace((w1 + w2)[k]) {
          if k >= |w1| { assert (w1 + w2)[k] == w2[k - |w1|]; }
        }
      }
      assert s == w1 + w2 + [];
    } else {
      TrimStartPadded(w1, t + w2);
      TrimEndPadded(t, w2);
    }
  }

  /** A string whose ends are not whitespace is its own trim; in particular
      trimming twice is trimming once. */
  lemma TrimUnpadded(s: string)
    requires Unpadded(s)
    ensures Trim(s) == s
  {
    TrimPadded([], s, []);
    assert [] + s + [] == s;
  }

  /** `p` occurs in `s` starting at index `j`. */
  predicate OccursAt(s: string, p: string, j: nat)
  {
    j + |p| <= |s| && s[j..j + |p|] == p
  }

  /** `s.indexOf(p)`: the first index at which `p` occurs in `s`, or None
      where JavaScript answers -1. */
  function IndexOf(s: string, p: string): (r: Option<nat>)
    ensures r.Some? ==> r.value + |p| <= |s|
  {
    if |p| > |s| then None
    else if s[..|p|] == p then Some(0)
    else
      match IndexOf(s[1..], p)
      case None => None
      case Some(k) => Some(k + 1)
  }

  /** IndexOf finds an occurrence with none before it, or reports that there is none. */
  lemma {:induction false} IndexOfSpec(s: string, p: string)
    ensures var r := IndexOf(s, p);
      && (r.Some? ==> OccursAt(s, p, r.value))
      && (r.Some? ==> forall j: nat :: j < r.value ==> !OccursAt(s, p, j))
      && (r.None? ==> forall j: nat :: !OccursAt(s, p, j))
  {
    if |p| <= |s| && s[..|p|] != p {
      IndexOfSpec(s[1..], p);
      assert !OccursAt(s, p, 0);
      forall j: nat | 1 <= j
        ensures OccursAt(s, p, j) <==> OccursAt(s[1..], p, j - 1)
      {
        OccursShift(s, p, j);
      }
    }
  }

  /** An occurrence after the first character is an occurrence in the rest. */
  lemma OccursShift(s: string, p: string, j: nat)
    requires 1 <= j && s != []
    ensures OccursAt(s, p, j) <==> OccursAt(s[1..], p, j - 1)
  {
    if j + |p| <= |s| {
      assert s[1..][j - 1..j - 1 + |p|] == s[j..j + |p|];
    }
  }

  /** `s.replace(p, '')`. */
  function RemoveFirst(s: string, p: string): string
  {
    match IndexOf(s, p)
    case None => s
    case Some(k) => s[..k] + s[k + |p|..]
  }

  /** `s.replace(p, '')` cuts the first occurrence of `p` out of `s`, and returns
      `s` unchanged when `p` does not occur. */
  lemma RemoveFirstSpec(s: string, p: string)
    ensures (forall j: nat :: !OccursAt(s, p, j)) ==> RemoveFirst(s, p) == s
    ensures forall k: nat ::
              OccursAt(s, p, k) && (forall j: nat :: j < k ==> !OccursAt(s, p, j))
              ==> RemoveFirst(s, p) == s[..k] + s[k + |p|..]
  {
    IndexOfSpec(s, p);
    match IndexOf(s, p)
    case None =>
    case Some(i) =>
      forall k: nat | OccursAt(s, p, k) && (forall j: nat :: j < k ==> !OccursAt(s, p, j))
        ensures RemoveFirst(s, p) == s[..k] + s[k + |p|..]
      {
        assert !(k < i) && !(i < k);
      }
  }

  /** Cutting a leading `p` out of `p + rest` gives `rest`. */
  lemma RemoveLeading(p: string, rest: string)
    ensures RemoveFirst(p + rest, p) == rest
  {
    var s := p + rest;
    assert s[..|p|] == p;
    assert IndexOf(s, p) == Some(0);
    assert s[..0] + s[|p|..] == rest;
  }
}
