/** Facts about strings built by concatenation, stated for arbitrary pieces so
    that proofs about the login-script templates never unfold their literals. */
module Splicing {

  /** `t` appears in `s` starting at index `i`. */
  predicate Occurs(s: string, t: string, i: nat)
  {
    i + |t| <= |s| && s[i..i + |t|] == t
  }

  /** `s` and `s'` have the same length and agree outside the two windows
      `[a1, a1 + w)` and `[a2, a2 + w)`. */
  predicate AgreeOutside(s: string, s': string, a1: nat, a2: nat, w: nat)
  {
    |s| == |s'| &&
    forall i :: 0 <= i < |s| && !(a1 <= i < a1 + w) && !(a2 <= i < a2 + w) ==> s[i] == s'[i]
  }

  /** The five pieces of `a + u + m + p + t` can be sliced back out. */
  lemma SlotsOfSplice(a: string, u: string, m: string, p: string, t: string)
    ensures var s := a + u + m + p + t;
            && s[..|a|] == a && s[|a|..|a| + |u|] == u
            && s[|a| + |u|..|a| + |u| + |m|] == m
            && s[|a| + |u| + |m|..|s| - |t|] == p && s[|s| - |t|..] == t
  {
    var s := a + u + m + p + t;
    assert s == (a + u + m + p) + t;
  }

  /** A string whose ends and middle piece are known is those pieces joined
      around its two remaining slices. */
  lemma JoinSlots(s: string, a: string, m: string, t: string, n: nat)
    requires |a| + n + |m| + |t| <= |s|
    requires s[..|a|] == a && s[|a| + n..|a| + n + |m|] == m && s[|s| - |t|..] == t
    ensures a + s[|a|..|a| + n] + m + s[|a| + n + |m|..|s| - |t|] + t == s
  {
    var k, e := |a| + n, |s| - |t|;
    assert s == s[..|a|] + s[|a|..k] + s[k..k + |m|] + s[k + |m|..e] + s[e..];
  }

  lemma OccursAfter(a: string, x: string, b: string)
    ensures Occurs(a + x + b, x, |a|)
  {
    assert (a + x + b)[|a|..|a| + |x|] == x;
  }

  lemma OccursExtended(s: string, x: string, i: nat, b: string)
    requires Occurs(s, x, i)
    ensures Occurs(s + b, x, i)
  {
    assert (s + b)[i..i + |x|] == s[i..i + |x|];
  }

  /** The second, fourth and sixth pieces of a seven-piece string occur at
      their offsets. */
  lemma PiecesOccur(h: string, e: string, ae: string, pw: string, ap: string, sb: string,
                    rest: string)
    ensures var s := h + e + ae + pw + ap + sb + rest;
            && |h| + |e| + |ae| + |pw| + |ap| + |sb| <= |s|
            && Occurs(s, e, |h|)
            && Occurs(s, pw, |h| + |e| + |ae|)
            && Occurs(s, sb, |h| + |e| + |ae| + |pw| + |ap|)
  {
    OccursAfter(h, e, ae);
    OccursExtended(h + e + ae, e, |h|, pw);
    OccursExtended(h + e + ae + pw, e, |h|, ap);
    OccursExtended(h + e + ae + pw + ap, e, |h|, sb);
    OccursExtended(h + e + ae + pw + ap + sb, e, |h|, rest);
    OccursAfter(h + e + ae, pw, ap);
    OccursExtended(h + e + ae + pw + ap, pw, |h| + |e| + |ae|, sb);
    OccursExtended(h + e + ae + pw + ap + sb, pw, |h| + |e| + |ae|, rest);
    OccursAfter(h + e + ae + pw + ap, sb, rest);
  }

  /** Quote characters at the borders of the fixed pieces surround the slots. */
  lemma QuotesAroundSlots(a: string, u: string, m: string, p: string, t: string)
    requires |a| > 0 && |m| > 0 && |t| > 0
    requires a[|a| - 1] == '"' && m[0] == '"' && m[|m| - 1] == '"' && t[0] == '"'
    ensures var s := a + u + m + p + t;
            var n := |a| + |u| + |m|;
            && s[|a| - 1] == '"' && s[|a| + |u|] == '"'
            && s[n - 1] == '"' && s[n + |p|] == '"'
  {
  }

  /** Swapping the last piece for one of the same length changes nothing
      outside it (the second window is arbitrary). */
  lemma AgreeSwapLast(a: string, x: string, x': string, a2: nat)
    requires |x| == |x'|
    ensures AgreeOutside(a + x, a + x', |a|, a2, |x|)
  {
  }

  /** Appending the same text keeps two strings in agreement. */
  lemma AgreeAppend(s: string, s': string, t: string, a1: nat, a2: nat, w: nat)
    requires AgreeOutside(s, s', a1, a2, w)
    ensures AgreeOutside(s + t, s' + t, a1, a2, w)
  {
  }

  /** Appending two different texts of width `w` keeps them in agreement
      outside a second window that starts where they do. */
  lemma AgreeAppendWindow(s: string, s': string, y: string, y': string, a1: nat, w: nat)
    requires AgreeOutside(s, s', a1, |s|, w) && |y| == w && |y'| == w
    ensures AgreeOutside(s + y, s' + y', a1, |s|, w)
  {
  }

  /** Swapping two pieces of the same width changes nothing outside them. */
  lemma SameOutsideWindows(a: string, x: string, x': string, b: string, y: string, y': string,
                           c: string)
    requires |x| == |x'| == |y| == |y'|
    ensures var g, q := a + x + b + y + c, a + x' + b + y' + c;
            var w1, w2 := |a|, |a| + |x| + |b|;
            && Occurs(g, x, w1) && Occurs(q, x', w1)
            && Occurs(g, y, w2) && Occurs(q, y', w2)
            && AgreeOutside(g, q, w1, w2, |x|)
  {
    var w1, w2 := |a|, |a| + |x| + |b|;
    WindowsOccur(a, x, b, y, c);
    WindowsOccur(a, x', b, y', c);
    AgreeSwapLast(a, x, x', w2);
    AgreeAppend(a + x, a + x', b, w1, w2, |x|);
    AgreeAppendWindow(a + x + b, a + x' + b, y, y', w1, |x|);
    AgreeAppend(a + x + b + y, a + x' + b + y', c, w1, w2, |x|);
  }

  /** The second and fourth pieces of a five-piece string occur at their
      offsets. */
  lemma WindowsOccur(a: string, x: string, b: string, y: string, c: string)
    ensures Occurs(a + x + b + y + c, x, |a|)
    ensures Occurs(a + x + b + y + c, y, |a| + |x| + |b|)
  {
    OccursAfter(a, x, b);
    OccursExtended(a + x + b, x, |a|, y);
    OccursExtended(a + x + b + y, x, |a|, c);
    OccursAfter(a + x + b, y, c);
  }

  lemma Regroup(h: string, i1: string, x: string, e1: string, ae: string, i2: string, y: string,
                e2: string, ap: string, sb: string, sa: string)
    ensures h + (i1 + x + e1) + ae + (i2 + y + e2) + ap + sb + sa
         == (h + i1) + x + (e1 + ae + i2) + y + (e2 + (ap + sb + sa))
  {
  }

  /** Strings with same-length heads and a shared rest agree after the head. */
  lemma SamePrefixLength(a: string, b: string, rest: string)
    requires |a| == |b|
    ensures |a + rest| == |b + rest|
    ensures forall i :: 0 <= i < |a| ==> (a + rest)[i] == a[i] && (b + rest)[i] == b[i]
    ensures forall i :: |a| <= i < |a + rest| ==> (a + rest)[i] == (b + rest)[i]
  {
  }

  lemma SpliceShift(a: string, x: string, m: string, y: string, z: string, t: string)
    ensures a + (x + m + y) + m + z + t == a + x + m + (y + m + z) + t
  {
  }
}
