/**
 * Consequences of `RouteSemantics.PathToRegexMatchesSegments` that describe
 * how a registered route behaves on concrete kinds of paths: literal
 * templates, a trailing `:name` segment, and paths with extra segments.
 */
module RouteProperties {

  import opened Segments
  import opened Regex
  import opened Http
  import opened RouteSemantics

  /** A string is one segment exactly when it holds no '/'. */
  lemma SingleSegment(v: string)
    ensures |Split(v)| == 1 <==> NoSlash(v)
  {
    var n := SegmentLength(v);
    if n == |v| {
      assert v[..n] == v;
    }
  }

  /** Without parameters, the reference matcher accepts exactly the paths with the same segments. */
  lemma SameSegments(template: string, path: string)
    requires NoParameters(template)
    ensures SegmentwiseMatch(template, path) <==> Split(template) == Split(path)
  {
    var ts, ps := Split(template), Split(path);
    if SegmentwiseMatch(template, path) {
      forall i | 0 <= i < |ts|
        ensures ts[i] == ps[i]
      {
        if i > 0 {
          assert SegmentAccepts(ts[i], ps[i]);
        }
      }
    }
  }

  /** A template without `:name` segments matches a path exactly when the path is the template. */
  lemma LiteralTemplateMatchesOnlyItself(template: string, path: string)
    requires Supported(template) && NoParameters(template)
    ensures PathToRegex(template).Test(path) <==> path == template
  {
    PathToRegexMatchesSegments(template, path);
    SameSegments(template, path);
    JoinSplit(template);
    JoinSplit(path);
  }

  /** Every template matches its own text: a `:name` segment is a non-empty segment. */
  lemma TemplateMatchesItself(template: string)
    requires Supported(template)
    ensures PathToRegex(template).Test(template)
  {
    PathToRegexMatchesSegments(template, template);
    var ts := Split(template);
    forall i | 1 <= i < |ts|
      ensures SegmentAccepts(ts[i], ts[i])
    {
    }
  }

  /** A matched path has as many segments as the template, and every segment that is not a parameter equals the template's. */
  lemma MatchedPathShape(template: string, path: string)
    requires Supported(template)
    requires PathToRegex(template).Test(path)
    ensures |Split(path)| == |Split(template)|
    ensures forall i :: 0 <= i < |Split(template)| && !IsParameter(Split(template)[i]) ==>
              Split(path)[i] == Split(template)[i]
    ensures forall i :: 0 <= i < |Split(template)| ==> Split(path)[i] != [] || Split(template)[i] == []
  {
    PathToRegexMatchesSegments(template, path);
    var ts, ps := Split(template), Split(path);
    forall i | 0 <= i < |ts|
      ensures !IsParameter(ts[i]) ==> ps[i] == ts[i]
      ensures ps[i] != [] || ts[i] == []
    {
      if i > 0 {
        assert SegmentAccepts(ts[i], ps[i]);
      }
    }
  }

  /** A path the route matches cannot be extended by further segments and still match. */
  lemma NoExtraSegments(template: string, path: string, extra: string)
    requires Supported(template)
    requires PathToRegex(template).Test(path)
    ensures !PathToRegex(template).Test(path + "/" + extra)
  {
    PathToRegexMatchesSegments(template, path);
    PathToRegexMatchesSegments(template, path + "/" + extra);
    SplitAppend(path + "/" + extra, path, extra);
  }

  /**
   * A template ending in one `:name` segment after a parameter-free prefix
   * matches the prefix followed by '/' and `v` exactly when `v` is one
   * non-empty segment without '/'.
   */
  lemma TrailingParameter(template: string, prefix: string, name: string, v: string)
    requires Supported(template) && NoParameters(prefix)
    requires name != [] && NoSlash(name)
    requires template == prefix + "/" + (":" + name)
    ensures PathToRegex(template).Test(prefix + "/" + v) <==> v != [] && NoSlash(v)
  {
    var param := ":" + name;
    var path := prefix + "/" + v;
    assert NoSlash(param) by {
      assert forall i :: 1 <= i < |param| ==> param[i] == name[i - 1];
    }
    SplitAppend(template, prefix, param);
    SplitSingle(param);
    SplitAppend(path, prefix, v);
    SingleSegment(v);
    PathToRegexMatchesSegments(template, path);
    var pre := Split(prefix);
    var ts, ps := Split(template), Split(path);
    assert ts == pre + [param];
    assert ps == pre + Split(v);
    if v != [] && NoSlash(v) {
      assert Split(v) == [v];
      forall i | 1 <= i < |ts|
        ensures SegmentAccepts(ts[i], ps[i])
      {
        if i < |pre| {
          assert ts[i] == pre[i] == ps[i];
        } else {
          assert ts[i] == param && ps[i] == v;
        }
      }
    }
    if SegmentwiseMatch(template, path) {
      assert |Split(v)| == 1;
      assert Split(v) == [Split(v)[0]];
      var last := |pre|;
      assert last >= 1;
      assert ts[last] == param && ps[last] == Split(v)[0];
      assert SegmentAccepts(ts[last], ps[last]);
      SplitSingle(v);
    }
  }

  /** A segment that is a bare ':' names no parameter: the route matches only its own text. */
  lemma BareColonIsLiteral(template: string, prefix: string, path: string)
    requires Supported(template) && NoParameters(prefix)
    requires template == prefix + "/" + ":"
    ensures PathToRegex(template).Test(path) <==> path == template
  {
    SplitAppend(template, prefix, ":");
    SplitSingle(":");
    assert Split(template) == Split(prefix) + [":"];
    assert !IsParameter(":");
    LiteralTemplateMatchesOnlyItself(template, path);
  }

  /** A '.' in a template without parameters matches only a literal dot, not any character. */
  lemma DotMatchesOnlyDot(template: string, prefix: string, suffix: string, c: char)
    requires Supported(template) && NoParameters(template)
    requires template == prefix + "." + suffix
    ensures PathToRegex(template).Test(prefix + [c] + suffix) <==> c == '.'
  {
    LiteralTemplateMatchesOnlyItself(template, prefix + [c] + suffix);
    if prefix + [c] + suffix == template {
      assert (prefix + [c] + suffix)[|prefix|] == c;
      assert template[|prefix|] == '.';
    }
  }

  /** A matched path followed by a '/' no longer matches. */
  lemma TrailingSlashRejected(template: string, path: string)
    requires Supported(template)
    requires PathToRegex(template).Test(path)
    ensures !PathToRegex(template).Test(path + "/")
  {
    NoExtraSegments(template, path, "");
    assert path + "/" + "" == path + "/";
  }

  /** The root template matches the root path and nothing else. */
  lemma RootMatchesOnlyRoot(path: string)
    ensures PathToRegex("/").Test(path) <==> path == "/"
  {
    var template := "/";
    assert Supported(template);
    SplitSeparated(template, "", "");
    SplitSingle("");
    LiteralTemplateMatchesOnlyItself(template, path);
  }
}
