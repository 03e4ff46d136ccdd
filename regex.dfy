/**
 * The fragment of JavaScript's RegExp that route templates compile to.
 *
 * A compiled route is the source text between `^` and `$`. Within it the
 * compiler only ever emits an escaped character (`\.` or `\/`), the capture
 * group `([^\/]+)`, or a plain character that stands for itself. `Parse`
 * reads such a source into terms and `Matches` gives the meaning of the
 * anchored expression: the whole candidate string must be consumed.
 */
module Regex {

  import opened Segments

  /** One element of a compiled route: a fixed character, or one non-empty run without '/'. */
  datatype Term = Literal(c: char) | Segment

  /** The source text of the group that matches one path segment. */
  const SegmentGroup: string := "([^\\/]+)"

  /** Reads regex source text into terms. */
  function Parse(src: string): seq<Term>
    decreases |src|
  {
    if src == [] then []
    else if SegmentGroup <= src then [Segment] + Parse(src[|SegmentGroup|..])
    else if src[0] == '\\' && |src| >= 2 then [Literal(src[1])] + Parse(src[2..])
    else [Literal(src[0])] + Parse(src[1..])
  }

  /** Whether the anchored expression `^terms$` accepts all of `s`. */
  predicate Matches(terms: seq<Term>, s: string)
    decreases |terms|
  {
    if terms == [] then s == []
    else match terms[0]
      case Literal(c) => s != [] && s[0] == c && Matches(terms[1..], s[1..])
      case Segment =>
        exists k :: 1 <= k <= |s| && NoSlash(s[..k]) && Matches(terms[1..], s[k..])
  }

  /** A plain character other than a backslash or a group opener reads as itself. */
  lemma ParsePlain(src: string, c: char, rest: string)
    requires c != '\\' && c != '('
    requires src == [c] + rest
    ensures Parse(src) == [Literal(c)] + Parse(rest)
  {
    assert src[0] != SegmentGroup[0];
    assert src[1..] == rest;
  }

  /** A backslash makes the next character a literal. */
  lemma ParseEscape(src: string, c: char, rest: string)
    requires src == ['\\', c] + rest
    ensures Parse(src) == [Literal(c)] + Parse(rest)
  {
    assert src[0] != SegmentGroup[0];
    assert src[2..] == rest;
  }

  /** The segment group reads as one `Segment` term. */
  lemma ParseGroup(src: string, rest: string)
    requires src == SegmentGroup + rest
    ensures Parse(src) == [Segment] + Parse(rest)
  {
    assert src[|SegmentGroup|..] == rest;
  }

  /** A compiled regular expression `^source$`. */
  datatype RegExp = RegExp(source: string) {
    /** `RegExp.prototype.test` */
    predicate Test(s: string) {
      Matches(Parse(source), s)
    }
  }

  /** Each character as a literal term. */
  function Literals(s: string): (r: seq<Term>)
    ensures |r| == |s|
    ensures forall i :: 0 <= i < |s| ==> r[i] == Literal(s[i])
  {
    if s == [] then [] else [Literal(s[0])] + Literals(s[1..])
  }

  /** A run of literal terms consumes exactly that text from the front of the string. */
  lemma {:induction false} MatchesLiterals(lit: string, rest: seq<Term>, s: string)
    ensures Matches(Literals(lit) + rest, s) <==>
              |lit| <= |s| && s[..|lit|] == lit && Matches(rest, s[|lit|..])
  {
    if lit != [] {
      var terms := Literals(lit) + rest;
      assert terms[0] == Literal(lit[0]);
      assert terms[1..] == Literals(lit[1..]) + rest;
      if s != [] {
        MatchesLiterals(lit[1..], rest, s[1..]);
        if |lit| <= |s| {
          assert s[..|lit|] == [s[0]] + s[1..][..|lit| - 1];
          assert s[1..][|lit| - 1..] == s[|lit|..];
        }
      }
    } else {
      assert Literals(lit) + rest == rest;
    }
  }
}
