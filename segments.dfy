/**
 * Paths and route templates seen as '/'-separated segments: the reference
 * view against which the compiled route regex is checked.
 */
module Segments {

  /** No character of `s` is a '/'. */
  predicate NoSlash(s: string) {
    forall i :: 0 <= i < |s| ==> s[i] != '/'
  }

  /** Length of the longest prefix of `s` without a '/'. */
  function SegmentLength(s: string): (n: nat)
    ensures n <= |s|
    ensures NoSlash(s[..n])
    ensures n < |s| ==> s[n] == '/'
  {
    if s == [] || s[0] == '/' then 0
    else
      var n := 1 + SegmentLength(s[1..]);
      assert s[..n] == [s[0]] + s[1..][..n - 1];
      n
  }

  /** A slash-free prefix followed by nothing or by a '/' is exactly the first segment. */
  lemma {:induction false} SegmentLengthOf(u: string, w: string)
    requires NoSlash(u)
    requires w == [] || w[0] == '/'
    ensures SegmentLength(u + w) == |u|
  {
    if u != [] {
      assert (u + w)[0] == u[0];
      assert (u + w)[1..] == u[1..] + w;
      SegmentLengthOf(u[1..], w);
    }
  }

  /** `s.split("/")` */
  function Split(s: string): (r: seq<string>)
    ensures |r| >= 1
    decreases |s|
  {
    var n := SegmentLength(s);
    if n == |s| then [s] else [s[..n]] + Split(s[n + 1..])
  }

  /** No segment contains a '/'. */
  lemma {:induction false} SplitNoSlash(s: string)
    ensures forall i :: 0 <= i < |Split(s)| ==> NoSlash(Split(s)[i])
    decreases |s|
  {
    var n := SegmentLength(s);
    if n < |s| {
      SplitNoSlash(s[n + 1..]);
    }
  }

  /** The segments after a leading '/', or none for the empty rest. */
  function TailSplit(rest: string): seq<string> {
    if rest == [] then [] else Split(rest[1..])
  }

  /** `segs.join("/")` */
  function Join(segs: seq<string>): string
    requires |segs| >= 1
  {
    if |segs| == 1 then segs[0] else segs[0] + "/" + Join(segs[1..])
  }

  /** Splitting takes off the first segment and leaves the rest starting at its '/'. */
  lemma SplitFirst(s: string)
    ensures var n := SegmentLength(s);
            Split(s) == [s[..n]] + TailSplit(s[n..])
  {
    var n := SegmentLength(s);
    if n < |s| {
      assert s[n..][1..] == s[n + 1..];
    } else {
      assert s[..n] == s && s[n..] == [];
    }
  }

  /** Joining the segments of a string gives the string back. */
  lemma {:induction false} JoinSplit(s: string)
    ensures Join(Split(s)) == s
    decreases |s|
  {
    var n := SegmentLength(s);
    if n < |s| {
      var rest := s[n + 1..];
      var segs := [s[..n]] + Split(rest);
      assert Split(s) == segs;
      assert segs[1..] == Split(rest);
      JoinSplit(rest);
      assert Join(segs) == s[..n] + "/" + rest;
      assert s == s[..n] + "/" + rest;
    } else {
      assert Split(s) == [s];
    }
  }

  /** A slash-free string is a single segment. */
  lemma SplitSingle(u: string)
    requires NoSlash(u)
    ensures Split(u) == [u]
  {
    SegmentLengthOf(u, []);
    assert u + [] == u;
  }

  /** A slash-free string followed by a '/' is the first segment. */
  lemma SplitSeparated(s: string, u: string, w: string)
    requires NoSlash(u)
    requires s == u + "/" + w
    ensures Split(s) == [u] + Split(w)
  {
    assert s == u + ("/" + w);
    SegmentLengthOf(u, "/" + w);
    assert s[..|u|] == u;
    assert s[|u| + 1..] == w;
  }

  /** Concatenation is associative (stated once, so that proofs can name the step). */
  lemma AppendAssoc<T>(xs: seq<T>, ys: seq<T>, zs: seq<T>)
    ensures (xs + ys) + zs == xs + (ys + zs)
  {
  }

  /** The step of `SplitAppend` for a first string `a0 + "/" + a1`. */
  lemma SplitAppendStep(s: string, a: string, b: string, a0: string, a1: string, t: string)
    requires NoSlash(a0)
    requires a == a0 + "/" + a1
    requires s == a0 + "/" + t
    requires Split(t) == Split(a1) + Split(b)
    ensures Split(s) == Split(a) + Split(b)
  {
    SplitSeparated(a, a0, a1);
    SplitSeparated(s, a0, t);
    AppendAssoc([a0], Split(a1), Split(b));
  }

  /** A '/' between two strings separates their segments. */
  lemma {:induction false} SplitAppend(s: string, a: string, b: string)
    requires s == a + "/" + b
    ensures Split(s) == Split(a) + Split(b)
    decreases |a|
  {
    var n := SegmentLength(a);
    if n == |a| {
      assert a[..n] == a;
      SplitSingle(a);
      SplitSeparated(s, a, b);
    } else {
      var a0, a1 := a[..n], a[n + 1..];
      var t := a1 + "/" + b;
      assert a == a0 + "/" + a1;
      assert s == a0 + "/" + t;
      SplitAppend(t, a1, b);
      SplitAppendStep(s, a, b, a0, a1, t);
    }
  }
}
