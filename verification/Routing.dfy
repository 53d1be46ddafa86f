/** Path patterns of custom routes and guards, and the choice of a frontend by path prefix. */
module Routing {
  import opened Wrappers

  // ---------------------------------------------------------------- splitting at slashes

  predicate SlashFree(s: string) {
    '/' !in s
  }

  /** The segments between slashes; an empty path has one empty segment. */
  function Split(path: string): (segments: seq<string>)
    ensures |segments| >= 1
  {
    if path == [] then [""]
    else
      var rest := Split(path[1..]);
      if path[0] == '/' then [""] + rest else [[path[0]] + rest[0]] + rest[1..]
  }

  function Join(segments: seq<string>): string
    requires |segments| >= 1
  {
    if |segments| == 1 then segments[0] else segments[0] + "/" + Join(segments[1..])
  }

  predicate AllSlashFree(segments: seq<string>) {
    forall i :: 0 <= i < |segments| ==> SlashFree(segments[i])
  }

  lemma {:induction false} SplitIsSlashFree(path: string)
    ensures AllSlashFree(Split(path))
  {
    if path != [] {
      SplitIsSlashFree(path[1..]);
    }
  }

  lemma {:induction false} JoinOfSplit(path: string)
    ensures Join(Split(path)) == path
  {
    if path != [] {
      JoinOfSplit(path[1..]);
      var rest := Split(path[1..]);
      if path[0] == '/' {
        assert ([""] + rest)[1..] == rest;
        assert path == "" + "/" + path[1..];
      } else {
        JoinPushFirst(path[0], rest);
      }
    }
  }

  lemma JoinPushFirst(c: char, segments: seq<string>)
    requires |segments| >= 1
    ensures Join([[c] + segments[0]] + segments[1..]) == [c] + Join(segments)
  {
    var pushed := [[c] + segments[0]] + segments[1..];
    assert pushed[0] == [c] + segments[0] && pushed[1..] == segments[1..];
    if |segments| > 1 {
      PushAssociates(c, segments[0], Join(segments[1..]));
    }
  }

  lemma PushAssociates(c: char, first: string, rest: string)
    ensures ([c] + first) + "/" + rest == [c] + (first + "/" + rest)
  {
    assert ([c] + first) + "/" == [c] + (first + "/");
  }

  lemma {:induction false} SplitOfJoin(segments: seq<string>)
    requires |segments| >= 1 && AllSlashFree(segments)
    ensures Split(Join(segments)) == segments
    decreases |segments|, |segments[0]|
  {
    if segments[0] == [] {
      if |segments| > 1 {
        SplitOfJoin(segments[1..]);
        assert Join(segments) == "/" + Join(segments[1..]);
        assert Join(segments)[1..] == Join(segments[1..]);
        assert segments == [""] + segments[1..];
      }
    } else {
      var c, shorter := segments[0][0], [segments[0][1..]] + segments[1..];
      assert shorter[1..] == segments[1..];
      assert [c] + shorter[0] == segments[0];
      JoinPushFirst(c, shorter);
      assert [[c] + shorter[0]] + shorter[1..] == segments;
      assert Join(segments)[0] == c && Join(segments)[1..] == Join(shorter);
      assert c != '/';
      SplitOfJoin(shorter);
    }
  }

  // ---------------------------------------------------------------- matching

  predicate HasSuffix(s: string, suffix: string) {
    |suffix| <= |s| && s[|s| - |suffix|..] == suffix
  }

  function DropSuffix(s: string, suffix: string): string
    requires HasSuffix(s, suffix)
  {
    s[..|s| - |suffix|]
  }

  predicate Contains(s: string, part: string) {
    exists i :: 0 <= i <= |s| && part <= s[i..]
  }

  /** Segment i of the path is the pattern's, or the pattern's is a star. */
  predicate SegmentMatches(pattern: string, segment: string) {
    pattern == "*" || pattern == segment
  }

  /** The pattern reaches the segment loop: it has a star, and no trailing-star shortcut takes it. */
  predicate ReachesSegmentLoop(pattern: string) {
    && '*' in pattern
    && !HasSuffix(pattern, "/**")
    && !(HasSuffix(pattern, "/*") && !Contains(pattern, "/*/"))
  }

  /** What the pattern promises, read off its form. */
  ghost predicate Denotes(pattern: string, path: string) {
    if '*' !in pattern then path == pattern
    else if HasSuffix(pattern, "/**") then DropSuffix(pattern, "/**") <= path
    else if HasSuffix(pattern, "/*") && !Contains(pattern, "/*/") then DropSuffix(pattern, "/*") <= path
    else exists fill :: IsFilling(pattern, fill, path)
  }

  /** The path is the pattern with each star segment replaced by a slash-free string. */
  ghost predicate IsFilling(pattern: string, fill: seq<string>, path: string) {
    var segments := Split(pattern);
    && |fill| == |segments|
    && AllSlashFree(fill)
    && (forall i :: 0 <= i < |fill| ==> SegmentMatches(segments[i], fill[i]))
    && path == Join(fill)
  }

  /** The matcher accepts exactly the paths its pattern denotes. */
  method PathMatches(pattern: string, path: string) returns (matched: bool)
    ensures matched <==> Denotes(pattern, path)
  {
    if pattern == path {
      ExactIsDenoted(path);
      return true;
    }
    if '*' in pattern {
      if HasSuffix(pattern, "/**") {
        return DropSuffix(pattern, "/**") <= path;
      }
      if HasSuffix(pattern, "/*") && !Contains(pattern, "/*/") {
        return DropSuffix(pattern, "/*") <= path;
      }
      var patternSegments, pathSegments := Split(pattern), Split(path);
      FillingIsSegmentwise(pattern, path);
      if |patternSegments| != |pathSegments| {
        return false;
      }
      for i := 0 to |patternSegments|
        invariant forall j :: 0 <= j < i ==> SegmentMatches(patternSegments[j], pathSegments[j])
      {
        if patternSegments[i] == "*" {
          continue;
        }
        if patternSegments[i] != pathSegments[i] {
          return false;
        }
      }
      return true;
    }
    return false;
  }

  lemma ExactIsDenoted(path: string)
    ensures Denotes(path, path)
  {
    if ReachesSegmentLoop(path) {
      SplitIsSlashFree(path);
      JoinOfSplit(path);
      assert IsFilling(path, Split(path), path);
    }
  }

  /** A filling exists exactly when the segments agree one by one. */
  lemma FillingIsSegmentwise(pattern: string, path: string)
    ensures (exists fill :: IsFilling(pattern, fill, path)) <==>
            |Split(pattern)| == |Split(path)| &&
            forall i :: 0 <= i < |Split(path)| ==> SegmentMatches(Split(pattern)[i], Split(path)[i])
  {
    SplitIsSlashFree(path);
    JoinOfSplit(path);
    if exists fill :: IsFilling(pattern, fill, path) {
      var fill :| IsFilling(pattern, fill, path);
      SplitOfJoin(fill);
    }
    if |Split(pattern)| == |Split(path)| &&
       forall i :: 0 <= i < |Split(path)| ==> SegmentMatches(Split(pattern)[i], Split(path)[i])
    {
      assert IsFilling(pattern, Split(path), path);
    }
  }

  /**
    A trailing single star is not limited to one segment: with the star's prefix, every deeper path
    matches as well, and so does every longer first segment.
   */
  lemma TrailingStarMatchesDeeperPaths(prefix: string, rest: string)
    requires !Contains(prefix + "/*", "/*/")
    ensures Denotes(prefix + "/*", prefix + rest)
  {
    var pattern := prefix + "/*";
    assert pattern[|pattern| - 2..] == "/*";
    assert DropSuffix(pattern, "/*") == prefix;
    assert pattern[|pattern| - 1] == '*';
    assert |pattern| >= 3 ==> pattern[|pattern| - 3..][1] == '/';
  }

  /** A pattern without a star means exactly itself. */
  lemma PlainPattern(pattern: string, path: string)
    requires '*' !in pattern
    ensures Denotes(pattern, path) <==> path == pattern
  {
  }

  /** A trailing double star means every path with its prefix, the prefix itself included. */
  lemma DoubleStarTail(prefix: string, path: string)
    ensures Denotes(prefix + "/**", path) <==> prefix <= path
  {
    var pattern := prefix + "/**";
    assert pattern[|pattern| - 3..] == "/**" && pattern[|pattern| - 1] == '*';
    assert DropSuffix(pattern, "/**") == prefix;
  }

  /** So does a trailing single star, unless another star segment comes before it. */
  lemma SingleStarTail(prefix: string, path: string)
    requires forall i :: 0 <= i <= |prefix| + 2 ==> !("/*/" <= (prefix + "/*")[i..])
    ensures Denotes(prefix + "/*", path) <==> prefix <= path
  {
    var pattern := prefix + "/*";
    assert pattern[|pattern| - 2..] == "/*" && pattern[|pattern| - 1] == '*';
    assert DropSuffix(pattern, "/*") == prefix;
    assert |pattern| >= 3 ==> pattern[|pattern| - 3..][1] == '/';
  }

  /** The pattern has no trailing double star, and a trailing single star only with a star segment before it. */
  predicate IsSegmentPattern(p: string) {
    && (|p| >= 3 ==> p[|p| - 3..] != "/**")
    && (|p| >= 2 && p[|p| - 2..] == "/*" ==> exists i :: 0 <= i <= |p| && "/*/" <= p[i..])
  }

  lemma ReachesLoop(p: string)
    requires '*' in p && IsSegmentPattern(p)
    ensures ReachesSegmentLoop(p)
  {
    assert !HasSuffix(p, "/**") by {
      assert |p| >= 3 ==> p[|p| - 3..] != "/**";
    }
    if HasSuffix(p, "/*") {
      var i :| 0 <= i <= |p| && "/*/" <= p[i..];
      assert Contains(p, "/*/");
    }
  }

  /** In any other pattern a star segment stands for one segment, whatever it is, and only for one. */
  lemma StarSegments(segments: seq<string>, fill: seq<string>)
    requires |segments| >= 1 && AllSlashFree(segments) && |fill| >= 1 && AllSlashFree(fill)
    requires '*' in Join(segments) && IsSegmentPattern(Join(segments))
    ensures Denotes(Join(segments), Join(fill)) <==>
            |fill| == |segments| && forall i :: 0 <= i < |fill| ==> segments[i] == "*" || segments[i] == fill[i]
  {
    ReachesLoop(Join(segments));
    SplitOfJoin(segments);
    SplitOfJoin(fill);
    FillingIsSegmentwise(Join(segments), Join(fill));
  }

  // ---------------------------------------------------------------- frontends

  ghost predicate LongestFirst(prefixes: seq<string>) {
    forall i, j :: 0 <= i < j < |prefixes| ==> |prefixes[i]| >= |prefixes[j]|
  }

  /** A stable sort by descending length. */
  method SortByLength(keys: seq<string>) returns (prefixes: seq<string>)
    ensures LongestFirst(prefixes) && forall p :: p in prefixes <==> p in keys
  {
    prefixes := [];
    for i := 0 to |keys|
      invariant LongestFirst(prefixes) && forall p :: p in prefixes <==> p in keys[..i]
    {
      var pos := 0;
      while pos < |prefixes| && |prefixes[pos]| >= |keys[i]|
        invariant 0 <= pos <= |prefixes|
        invariant forall k :: 0 <= k < pos ==> |prefixes[k]| >= |keys[i]|
      {
        pos := pos + 1;
      }
      assert prefixes == prefixes[..pos] + prefixes[pos..];
      assert keys[..i + 1] == keys[..i] + [keys[i]];
      prefixes := prefixes[..pos] + [keys[i]] + prefixes[pos..];
    }
    assert keys[..|keys|] == keys;
  }

  /** The chosen prefix, and the path handed to its frontend, whatever order the keys come in. */
  method ChooseFrontend(ghost registered: set<string>, keys: seq<string>, path: string)
      returns (choice: Option<(string, string)>)
    requires forall p :: p in keys <==> p in registered
    ensures choice.None? <==> forall p :: p in registered ==> !(p <= path)
    ensures choice.Some? ==>
              var (prefix, asset) := choice.value;
              && prefix in registered && prefix <= path
              && (forall p :: p in registered && p <= path ==> p <= prefix)
              && (if prefix == "/" then asset == path else prefix + asset == path)
  {
    var prefixes := SortByLength(keys);
    for i := 0 to |prefixes|
      invariant forall j :: 0 <= j < i ==> !(prefixes[j] <= path)
    {
      if prefixes[i] <= path {
        assert prefixes[i] in prefixes;
        forall p | p in prefixes && p <= path
          ensures p <= prefixes[i]
        {
          PrefixesOfOnePath(p, prefixes[i], path);
        }
        if prefixes[i] == "/" {
          return Some((prefixes[i], path));
        }
        return Some((prefixes[i], path[|prefixes[i]|..]));
      }
    }
    return None;
  }

  lemma PrefixesOfOnePath(a: string, b: string, path: string)
    requires a <= path && b <= path && |a| <= |b|
    ensures a <= b
  {
  }

  /** Whatever order the map iterates in, the chosen prefix is the same. */
  lemma ChoiceIsIndependentOfOrder(a: string, b: string, registered: set<string>, path: string)
    requires a in registered && a <= path && forall p :: p in registered && p <= path ==> p <= a
    requires b in registered && b <= path && forall p :: p in registered && p <= path ==> p <= b
    ensures a == b
  {
    assert a <= b && b <= a;
  }
}
