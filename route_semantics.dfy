/**
 * What a compiled route template accepts. `SegmentwiseMatch` is the
 * reference reading of a template: split template and path on '/', require
 * the same number of segments, compare literal segments exactly and let a
 * `:name` segment stand for any non-empty segment. The lemmas here show that
 * the regular expression built by `pathToRegex` (src/http.ts) accepts
 * exactly what this reading accepts, for templates free of regex syntax.
 */
module RouteSemantics {

  import opened Segments
  import opened Regex
  import opened Http

  // ---------------------------------------------------------------------
  // The reference matcher

  /** Characters that are regex syntax in JavaScript and that `pathToRegex` leaves unescaped. */
  const RegexSyntax: string := "\\()[]{}^$|*+?"

  predicate IsRegexSyntax(c: char) {
    c in RegexSyntax
  }

  /** A template whose compiled form means what its text suggests. */
  predicate Supported(template: string) {
    forall i :: 0 <= i < |template| ==> !IsRegexSyntax(template[i])
  }

  /** A segment written `:name` (a name of at least one character). */
  predicate IsParameter(seg: string) {
    |seg| >= 2 && seg[0] == ':'
  }

  /** A parameter segment accepts any non-empty path segment; any other segment only itself. */
  predicate SegmentAccepts(templateSeg: string, pathSeg: string) {
    if IsParameter(templateSeg) then pathSeg != [] else pathSeg == templateSeg
  }

  /**
   * Same number of segments; the segment before the first '/' (never a
   * parameter, since no '/' precedes it) equal; every later segment accepted.
   */
  predicate SegmentwiseMatch(template: string, path: string) {
    var ts, ps := Split(template), Split(path);
    |ts| == |ps| && ts[0] == ps[0] &&
    forall i :: 1 <= i < |ts| ==> SegmentAccepts(ts[i], ps[i])
  }

  /** A template none of whose segments is a parameter. */
  predicate NoParameters(template: string) {
    var ts := Split(template);
    forall i :: 1 <= i < |ts| ==> !IsParameter(ts[i])
  }

  // ---------------------------------------------------------------------
  // The terms a route compiles to, segment by segment

  function SegmentTerms(seg: string): seq<Term> {
    if IsParameter(seg) then [Segment] else Literals(seg)
  }

  /** The terms for the segments after the first: each is a '/' and then its own terms. */
  function TailTerms(segs: seq<string>): seq<Term> {
    if segs == [] then [] else [Literal('/')] + SegmentTerms(segs[0]) + TailTerms(segs[1..])
  }

  function RouteTerms(template: string): seq<Term> {
    var ts := Split(template);
    Literals(ts[0]) + TailTerms(ts[1..])
  }

  /** The source text one later segment compiles to. */
  function SegmentSource(seg: string): string {
    if IsParameter(seg) then "\\/" + SegmentGroup else "\\/" + Escape(seg, '.')
  }

  // ---------------------------------------------------------------------
  // The replace chain, piece by piece

  /** Escaping distributes over concatenation. */
  lemma {:induction false} EscapeAppend(ab: string, a: string, b: string, c: char)
    requires ab == a + b
    ensures Escape(ab, c) == Escape(a, c) + Escape(b, c)
    decreases |a|
  {
    if a == [] {
      assert ab == b;
    } else {
      var h := if a[0] == c then ['\\', c] else [a[0]];
      assert ab[0] == a[0];
      assert ab[1..] == a[1..] + b;
      EscapeAppend(ab[1..], a[1..], b, c);
      AppendAssoc(h, Escape(a[1..], c), Escape(b, c));
    }
  }

  /** Escaping a character that does not occur changes nothing. */
  lemma {:induction false} EscapeAbsent(s: string, c: char)
    requires forall i :: 0 <= i < |s| ==> s[i] != c
    ensures Escape(s, c) == s
  {
    if s != [] {
      EscapeAbsent(s[1..], c);
    }
  }

  /** Escaping dots adds no '/'. */
  lemma {:induction false} EscapeNoSlash(x: string)
    requires NoSlash(x)
    ensures NoSlash(Escape(x, '.'))
  {
    if x != [] {
      EscapeNoSlash(x[1..]);
    }
  }

  /** The parameter replacement never starts inside a stretch without '/', so such a stretch is copied. */
  lemma {:induction false} ReplaceParamsAppend(uv: string, u: string, v: string)
    requires NoSlash(u)
    requires uv == u + v
    ensures ReplaceParams(uv) == u + ReplaceParams(v)
    decreases |u|
  {
    if u == [] {
      assert uv == v;
    } else {
      assert uv[0] == u[0];
      assert uv[1..] == u[1..] + v;
      ReplaceParamsAppend(uv[1..], u[1..], v);
      AppendAssoc([u[0]], u[1..], ReplaceParams(v));
      assert [u[0]] + u[1..] == u;
    }
  }

  /** One step of the parameter replacement where a parameter starts. */
  lemma ReplaceParamsAt(s: string)
    requires |s| >= 3 && s[0] == '/' && s[1] == ':' && s[2] != '/'
    ensures ReplaceParams(s) == ParamReplacement + ReplaceParams(s[2 + SegmentLength(s[2..])..])
  {
  }

  /** One step of the parameter replacement where no parameter starts. */
  lemma ReplaceParamsCopy(s: string)
    requires s != []
    requires !(|s| >= 3 && s[0] == '/' && s[1] == ':' && s[2] != '/')
    ensures ReplaceParams(s) == [s[0]] + ReplaceParams(s[1..])
  {
  }

  /** The source text `pathToRegex` builds for a template. */
  function Source(template: string): string {
    PathToRegex(template).source
  }

  /** The first segment is copied, dots escaped. */
  lemma HeadSource(t: string, x: string, y: string)
    requires NoSlash(x)
    requires t == x + y
    ensures Source(t) == Escape(x, '.') + Source(y)
  {
    var xe, ye := Escape(x, '.'), Escape(y, '.');
    EscapeAppend(t, x, y, '.');
    EscapeNoSlash(x);
    ReplaceParamsAppend(Escape(t, '.'), xe, ye);
    EscapeAppend(ReplaceParams(Escape(t, '.')), xe, ReplaceParams(ye), '/');
    EscapeAbsent(xe, '/');
  }

  /** `Escape` of a non-empty segment starts with the segment's first character or a backslash. */
  lemma EscapeFront(w: string)
    requires w != []
    ensures Escape(w, '.') != []
    ensures Escape(w, '.')[0] == (if w[0] == '.' then '\\' else w[0])
  {
  }

  /** The parameter group, slashes escaped, is the segment group of the compiled source. */
  lemma ParamReplacementSource()
    ensures Escape(ParamReplacement, '/') == "\\/" + SegmentGroup
  {
  }

  /** A later segment: its '/' is kept and its text has dots escaped. */
  lemma DotsEscaped(t: string, seg: string, y: string)
    requires t == "/" + seg + y
    ensures Escape(t, '.') == "/" + Escape(seg, '.') + Escape(y, '.')
  {
    EscapeAppend(t, "/" + seg, y, '.');
    EscapeAppend("/" + seg, "/", seg, '.');
    assert Escape("/", '.') == "/";
  }

  /** Escaping dots keeps a leading '/' and the empty string. */
  lemma EscapeRest(y: string)
    requires y == [] || y[0] == '/'
    ensures var ye := Escape(y, '.'); ye == [] || ye[0] == '/'
  {
  }

  /** Escaping a `:name` segment keeps the ':' and leaves a non-empty, slash-free rest. */
  lemma EscapedParameter(seg: string)
    requires NoSlash(seg) && IsParameter(seg)
    ensures var we := Escape(seg[1..], '.');
            Escape(seg, '.') == ":" + we && NoSlash(we) && we != [] && we[0] != '/'
  {
    var w := seg[1..];
    EscapeAppend(seg, [':'], w, '.');
    assert Escape([':'], '.') == [':'];
    EscapeFront(w);
    EscapeNoSlash(w);
  }

  /** Escaping any other segment gives text that cannot start a parameter after a '/'. */
  lemma EscapedLiteral(seg: string)
    requires NoSlash(seg) && !IsParameter(seg)
    ensures var e := Escape(seg, '.');
            NoSlash(e) && (e == [] || e[0] != ':' || e == [':'])
  {
    EscapeNoSlash(seg);
    if seg != [] {
      EscapeFront(seg);
      if seg[0] == ':' {
        assert seg == [':'];
      }
    }
  }

  /** After "/:", a non-empty slash-free run is replaced as a whole by the parameter group. */
  lemma ParameterReplaced(s: string, we: string, ye: string)
    requires NoSlash(we) && we != [] && we[0] != '/'
    requires ye == [] || ye[0] == '/'
    requires s == "/" + (":" + we) + ye
    ensures ReplaceParams(s) == ParamReplacement + ReplaceParams(ye)
  {
    assert s[2..] == we + ye;
    SegmentLengthOf(we, ye);
    assert s[2 + |we|..] == ye;
    ReplaceParamsAt(s);
  }

  /** A '/' followed by text that does not start a parameter is copied, and so is that text. */
  lemma LiteralCopied(s: string, e: string, ye: string)
    requires NoSlash(e) && (e == [] || e[0] != ':' || e == [':'])
    requires ye == [] || ye[0] == '/'
    requires s == "/" + e + ye
    ensures ReplaceParams(s) == "/" + e + ReplaceParams(ye)
  {
    assert s[1..] == e + ye;
    if e == [':'] {
      assert ye == [] || s[2] == '/';
    } else if e != [] {
      assert s[1] == e[0];
    }
    ReplaceParamsCopy(s);
    ReplaceParamsAppend(s[1..], e, ye);
    AppendAssoc("/", e, ReplaceParams(ye));
  }

  /** A `:name` segment compiles to an escaped '/' and the segment group. */
  lemma ParameterSource(t: string, seg: string, y: string)
    requires NoSlash(seg) && IsParameter(seg)
    requires y == [] || y[0] == '/'
    requires t == "/" + seg + y
    ensures Source(t) == SegmentSource(seg) + Source(y)
  {
    var ye := Escape(y, '.');
    DotsEscaped(t, seg, y);
    EscapeRest(y);
    EscapedParameter(seg);
    var we := Escape(seg[1..], '.');
    ParameterReplaced(Escape(t, '.'), we, ye);
    EscapeAppend(ReplaceParams(Escape(t, '.')), ParamReplacement, ReplaceParams(ye), '/');
    ParamReplacementSource();
  }

  /** Any other later segment compiles to an escaped '/' and its text with dots escaped. */
  lemma LiteralSource(t: string, seg: string, y: string)
    requires NoSlash(seg) && !IsParameter(seg)
    requires y == [] || y[0] == '/'
    requires t == "/" + seg + y
    ensures Source(t) == SegmentSource(seg) + Source(y)
  {
    var e, ye := Escape(seg, '.'), Escape(y, '.');
    var r := ReplaceParams(ye);
    DotsEscaped(t, seg, y);
    EscapeRest(y);
    EscapedLiteral(seg);
    LiteralCopied(Escape(t, '.'), e, ye);
    var q := ReplaceParams(Escape(t, '.'));
    EscapeAppend(q, "/" + e, r, '/');
    EscapeAppend("/" + e, "/", e, '/');
    assert Escape("/", '/') == "\\/";
    EscapeAbsent(e, '/');
  }

  // ---------------------------------------------------------------------
  // Reading the source back

  /** Text with dots escaped reads back as its characters. */
  lemma {:induction false} ParseEscaped(src: string, x: string, z: string)
    requires Supported(x)
    requires src == Escape(x, '.') + z
    ensures Parse(src) == Literals(x) + Parse(z)
    decreases |x|
  {
    if x == [] {
      assert src == z;
    } else {
      var h := if x[0] == '.' then ['\\', '.'] else [x[0]];
      var rest := Escape(x[1..], '.') + z;
      AppendAssoc(h, Escape(x[1..], '.'), z);
      ParseEscaped(rest, x[1..], z);
      assert !IsRegexSyntax(x[0]);
      if x[0] == '.' {
        ParseEscape(src, '.', rest);
      } else {
        ParsePlain(src, x[0], rest);
      }
      AppendAssoc([Literal(x[0])], Literals(x[1..]), Parse(z));
    }
  }

  /** The source of a parameter segment reads back as '/' and one segment term. */
  lemma ParseParameterSource(src: string, z: string)
    requires src == "\\/" + SegmentGroup + z
    ensures Parse(src) == [Literal('/'), Segment] + Parse(z)
  {
    AppendAssoc("\\/", SegmentGroup, z);
    ParseEscape(src, '/', SegmentGroup + z);
    ParseGroup(SegmentGroup + z, z);
    AppendAssoc([Literal('/')], [Segment], Parse(z));
  }

  /** The source of any other segment reads back as '/' and its characters. */
  lemma ParseLiteralSource(src: string, seg: string, z: string)
    requires Supported(seg)
    requires src == "\\/" + Escape(seg, '.') + z
    ensures Parse(src) == [Literal('/')] + Literals(seg) + Parse(z)
  {
    var rest := Escape(seg, '.') + z;
    AppendAssoc("\\/", Escape(seg, '.'), z);
    ParseEscape(src, '/', rest);
    ParseEscaped(rest, seg, z);
    AppendAssoc([Literal('/')], Literals(seg), Parse(z));
  }

  /** One later segment's source reads back as its terms. */
  lemma ParseSegmentSource(src: string, seg: string, z: string)
    requires Supported(seg)
    requires src == SegmentSource(seg) + z
    ensures Parse(src) == [Literal('/')] + SegmentTerms(seg) + Parse(z)
  {
    if IsParameter(seg) {
      ParseParameterSource(src, z);
    } else {
      ParseLiteralSource(src, seg, z);
    }
  }

  /** The tail of a template (empty, or from its first '/') reads back as the terms of its segments. */
  lemma {:induction false} TailSourceParses(y: string)
    requires Supported(y)
    requires y == [] || y[0] == '/'
    ensures Parse(Source(y)) == TailTerms(TailSplit(y))
    decreases |y|
  {
    if y != [] {
      var z := y[1..];
      var n := SegmentLength(z);
      var seg, y' := z[..n], z[n..];
      assert y == "/" + seg + y';
      if IsParameter(seg) {
        ParameterSource(y, seg, y');
      } else {
        LiteralSource(y, seg, y');
      }
      ParseSegmentSource(Source(y), seg, Source(y'));
      TailSourceParses(y');
      SplitFirst(z);
      var rest := TailSplit(y');
      assert TailSplit(y) == [seg] + rest;
      assert ([seg] + rest)[1..] == rest;
    } else {
      assert Source(y) == [];
    }
  }

  /** `pathToRegex` produces exactly the terms of the template's segments. */
  lemma RouteSourceParses(template: string)
    requires Supported(template)
    ensures Parse(Source(template)) == RouteTerms(template)
  {
    var n := SegmentLength(template);
    var x, y := template[..n], template[n..];
    assert template == x + y;
    HeadSource(template, x, y);
    ParseEscaped(Source(template), x, Source(y));
    TailSourceParses(y);
    SplitFirst(template);
  }

  // ---------------------------------------------------------------------
  // What the terms accept

  /** Each template segment accepts the path segment at the same position, and there are as many. */
  predicate TailAccepts(ts: seq<string>, ps: seq<string>) {
    |ts| == |ps| && forall i :: 0 <= i < |ts| ==> SegmentAccepts(ts[i], ps[i])
  }

  predicate AllNoSlash(segs: seq<string>) {
    forall i :: 0 <= i < |segs| ==> NoSlash(segs[i])
  }

  lemma TailAcceptsCons(seg: string, rest: seq<string>, pseg: string, prest: seq<string>)
    ensures TailAccepts([seg] + rest, [pseg] + prest) <==>
              SegmentAccepts(seg, pseg) && TailAccepts(rest, prest)
  {
    var ts, ps := [seg] + rest, [pseg] + prest;
    if TailAccepts(ts, ps) {
      forall i | 0 <= i < |rest|
        ensures SegmentAccepts(rest[i], prest[i])
      {
        assert ts[i + 1] == rest[i] && ps[i + 1] == prest[i];
      }
      assert ts[0] == seg && ps[0] == pseg;
    }
    if SegmentAccepts(seg, pseg) && TailAccepts(rest, prest) {
      forall i | 0 <= i < |ts|
        ensures SegmentAccepts(ts[i], ps[i])
      {
        if i > 0 {
          assert ts[i] == rest[i - 1] && ps[i] == prest[i - 1];
        }
      }
    }
  }

  /** A later segment and its successors match the text after a '/' exactly when they accept its segments. */
  predicate TailMatchesAt(seg: string, rest: seq<string>, z: string) {
    Matches(SegmentTerms(seg) + TailTerms(rest), z) <==> TailAccepts([seg] + rest, Split(z))
  }

  /** Reading one step of `Matches` for a leading segment term. */
  lemma MatchesSegmentStep(rest: seq<Term>, z: string)
    ensures Matches([Segment] + rest, z) <==>
              exists k :: 1 <= k <= |z| && NoSlash(z[..k]) && Matches(rest, z[k..])
  {
    assert ([Segment] + rest)[0] == Segment && ([Segment] + rest)[1..] == rest;
  }

  /** The empty rest of a path, or one from a '/', where the later segments can begin. */
  predicate TailShaped(y: string) {
    y == [] || y[0] == '/'
  }

  /** If a parameter segment's run ends where the later segments are accepted, it is the whole path segment. */
  lemma ParameterTailForward(seg: string, rest: seq<string>, z: string, k: nat)
    requires IsParameter(seg)
    requires 1 <= k <= |z| && NoSlash(z[..k])
    requires TailShaped(z[k..]) && TailAccepts(rest, TailSplit(z[k..]))
    ensures TailAccepts([seg] + rest, Split(z))
  {
    assert z == z[..k] + z[k..];
    SegmentLengthOf(z[..k], z[k..]);
    SplitFirst(z);
    TailAcceptsCons(seg, rest, z[..k], TailSplit(z[k..]));
  }

  /** A non-empty path segment is a run the parameter's group can take. */
  lemma ParameterTailBackward(seg: string, rest: seq<string>, z: string)
    requires IsParameter(seg)
    requires TailAccepts([seg] + rest, Split(z))
    ensures var n := SegmentLength(z);
            1 <= n <= |z| && NoSlash(z[..n]) &&
            TailShaped(z[n..]) && TailAccepts(rest, TailSplit(z[n..]))
  {
    var n := SegmentLength(z);
    SplitFirst(z);
    TailAcceptsCons(seg, rest, z[..n], TailSplit(z[n..]));
  }

  /** A parameter segment consumes the whole next path segment, whatever it is, if it is not empty. */
  lemma {:induction false} ParameterTailMatch(seg: string, rest: seq<string>, z: string)
    requires IsParameter(seg) && AllNoSlash(rest)
    ensures TailMatchesAt(seg, rest, z)
    decreases |rest| + 1, 1
  {
    MatchesSegmentStep(TailTerms(rest), z);
    if exists k :: 1 <= k <= |z| && NoSlash(z[..k]) && Matches(TailTerms(rest), z[k..]) {
      var k :| 1 <= k <= |z| && NoSlash(z[..k]) && Matches(TailTerms(rest), z[k..]);
      TailMatch(rest, z[k..]);
      ParameterTailForward(seg, rest, z, k);
    }
    if TailAccepts([seg] + rest, Split(z)) {
      ParameterTailBackward(seg, rest, z);
      var n := SegmentLength(z);
      TailMatch(rest, z[n..]);
    }
  }

  /** Any other segment consumes its own text, which must be the whole next path segment. */
  lemma {:induction false} LiteralTailMatch(seg: string, rest: seq<string>, z: string)
    requires !IsParameter(seg) && NoSlash(seg) && AllNoSlash(rest)
    ensures TailMatchesAt(seg, rest, z)
    decreases |rest| + 1, 1
  {
    var n := SegmentLength(z);
    var pseg, y' := z[..n], z[n..];
    SplitFirst(z);
    TailAcceptsCons(seg, rest, pseg, TailSplit(y'));
    MatchesLiterals(seg, TailTerms(rest), z);
    if |seg| <= |z| && z[..|seg|] == seg && Matches(TailTerms(rest), z[|seg|..]) {
      TailMatch(rest, z[|seg|..]);
      assert z == seg + z[|seg|..];
      SegmentLengthOf(seg, z[|seg|..]);
    }
    if pseg == seg && TailAccepts(rest, TailSplit(y')) {
      TailMatch(rest, y');
    }
  }

  /** The terms of later segments match a rest of the path exactly when it is empty or starts with '/' and its segments are accepted one by one. */
  lemma {:induction false} TailMatch(segs: seq<string>, y: string)
    requires AllNoSlash(segs)
    ensures Matches(TailTerms(segs), y) <==> TailShaped(y) && TailAccepts(segs, TailSplit(y))
    decreases |segs|, 2
  {
    if segs == [] {
      if y != [] {
        assert |Split(y[1..])| >= 1;
      }
    } else {
      var seg, rest := segs[0], segs[1..];
      assert segs == [seg] + rest;
      var terms := TailTerms(segs);
      assert terms[0] == Literal('/');
      assert terms[1..] == SegmentTerms(seg) + TailTerms(rest);
      assert NoSlash(seg) && AllNoSlash(rest) by {
        assert segs[0] == seg;
        assert forall i :: 0 <= i < |rest| ==> rest[i] == segs[i + 1];
      }
      if y != [] && y[0] == '/' {
        if IsParameter(seg) {
          ParameterTailMatch(seg, rest, y[1..]);
        } else {
          LiteralTailMatch(seg, rest, y[1..]);
        }
      }
    }
  }

  /** The reference matcher, seen as the first segments equal and the later ones accepted. */
  lemma SegmentwiseMatchTails(template: string, path: string)
    ensures var ts, ps := Split(template), Split(path);
            SegmentwiseMatch(template, path) <==> ts[0] == ps[0] && TailAccepts(ts[1..], ps[1..])
  {
    var ts, ps := Split(template), Split(path);
    if SegmentwiseMatch(template, path) {
      forall i | 0 <= i < |ts| - 1
        ensures SegmentAccepts(ts[1..][i], ps[1..][i])
      {
        assert ts[1..][i] == ts[i + 1] && ps[1..][i] == ps[i + 1];
      }
    }
    if ts[0] == ps[0] && TailAccepts(ts[1..], ps[1..]) {
      forall i | 1 <= i < |ts|
        ensures SegmentAccepts(ts[i], ps[i])
      {
        assert ts[1..][i - 1] == ts[i] && ps[1..][i - 1] == ps[i];
      }
    }
  }

  /** A path that starts with the template's first segment and then has accepted later segments matches. */
  lemma HeadForward(template: string, path: string)
    requires var x := Split(template)[0];
             |x| <= |path| && path[..|x|] == x &&
             TailShaped(path[|x|..]) && TailAccepts(Split(template)[1..], TailSplit(path[|x|..]))
    ensures SegmentwiseMatch(template, path)
  {
    var ts := Split(template);
    var x, y := ts[0], path[|ts[0]|..];
    SplitFirst(template);
    SplitNoSlash(template);
    assert path == x + y;
    SegmentLengthOf(x, y);
    SplitFirst(path);
    SegmentwiseMatchTails(template, path);
  }

  /** A path the reference matcher accepts starts with the template's first segment and continues with accepted segments. */
  lemma HeadBackward(template: string, path: string)
    requires SegmentwiseMatch(template, path)
    ensures var x := Split(template)[0];
            |x| <= |path| && path[..|x|] == x &&
            TailShaped(path[|x|..]) && TailAccepts(Split(template)[1..], TailSplit(path[|x|..]))
  {
    SplitFirst(path);
    SegmentwiseMatchTails(template, path);
  }

  /** The terms of a template match a path exactly when the reference matcher accepts it. */
  lemma RouteMatch(template: string, path: string)
    ensures Matches(RouteTerms(template), path) <==> SegmentwiseMatch(template, path)
  {
    var ts := Split(template);
    var x := ts[0];
    SplitNoSlash(template);
    assert AllNoSlash(ts[1..]) by {
      assert forall i :: 0 <= i < |ts| - 1 ==> ts[1..][i] == ts[i + 1];
    }
    MatchesLiterals(x, TailTerms(ts[1..]), path);
    if |x| <= |path| && path[..|x|] == x {
      TailMatch(ts[1..], path[|x|..]);
    }
    if Matches(RouteTerms(template), path) {
      HeadForward(template, path);
    }
    if SegmentwiseMatch(template, path) {
      HeadBackward(template, path);
    }
  }

  // ---------------------------------------------------------------------
  // The theorem

  /**
   * For a template without regex syntax, the regular expression `pathToRegex`
   * builds accepts a path exactly when the path has the template's segments:
   * the same count, the first one equal, every `:name` segment standing for a
   * non-empty segment and every other one equal to the path's.
   */
  lemma PathToRegexMatchesSegments(template: string, path: string)
    requires Supported(template)
    ensures PathToRegex(template).Test(path) <==> SegmentwiseMatch(template, path)
  {
    RouteSourceParses(template);
    RouteMatch(template, path);
  }
}
