/** The route table: composed paths, duplicates, and the order in which a request is
    matched against it. */
module Router {
  import opened Types
  import opened RoutePaths

  datatype Method = GET | POST | PUT | PATCH | DELETE

  datatype RouteDefinition = RouteDefinition(httpMethod: Method, path: string, version: Option<string>, handler: string)

  datatype Registration = Registration(
    modulePrefix: string, moduleVersion: Option<string>, prefix: Option<string>,
    controllerPrefix: string, controllerVersion: Option<string>, routes: seq<RouteDefinition>)

  datatype Route = Route(httpMethod: Method, fullPath: string, handler: string, specificity: nat)

  function OrElse(a: Option<string>, b: Option<string>): Option<string> { if a.Some? then a else b }

  function PathOf(reg: Registration, def: RouteDefinition): string {
    var version := OrElse(def.version, OrElse(reg.controllerVersion, reg.moduleVersion));
    JoinPath([reg.modulePrefix, if version.Some? then version.value else "",
              if reg.prefix.Some? then reg.prefix.value else "", reg.controllerPrefix, def.path])
  }

  /** The segments of a route's path: module prefix, then the version (the route's own,
      else its controller's, else its module's), then registration prefix, controller
      prefix and the route's path. */
  lemma PathSegments(reg: Registration, def: RouteDefinition)
    ensures var version := if def.version.Some? then Parts(Trim(def.version.value))
                           else if reg.controllerVersion.Some? then Parts(Trim(reg.controllerVersion.value))
                           else if reg.moduleVersion.Some? then Parts(Trim(reg.moduleVersion.value))
                           else [];
            var prefix := if reg.prefix.Some? then Parts(Trim(reg.prefix.value)) else [];
            Parts(PathOf(reg, def))
            == Parts(Trim(reg.modulePrefix)) + version + prefix + Parts(Trim(reg.controllerPrefix))
               + Parts(Trim(def.path))
  {
    hide Parts, Trim, JoinPath;
    var version := OrElse(def.version, OrElse(reg.controllerVersion, reg.moduleVersion));
    var v := if version.Some? then version.value else "";
    var p := if reg.prefix.Some? then reg.prefix.value else "";
    NothingToTrim();
    JoinedParts([reg.modulePrefix, v, p, reg.controllerPrefix, def.path]);
    FiveParts(reg.modulePrefix, v, p, reg.controllerPrefix, def.path);
  }

  lemma NothingToTrim()
    ensures Parts(Trim("")) == []
  {
  }

  lemma JoinedParts(segments: seq<string>)
    ensures Parts(JoinPath(segments)) == AllParts(segments)
  {
    JoinIsRender(segments);
    AllProper(segments);
    PartsOfRender(AllParts(segments));
  }

  lemma FiveParts(a: string, b: string, c: string, d: string, e: string)
    ensures AllParts([a, b, c, d, e])
            == Parts(Trim(a)) + Parts(Trim(b)) + Parts(Trim(c)) + Parts(Trim(d)) + Parts(Trim(e))
  {
    hide Parts, Trim;
    AllPartsOfTwo(a, b);
    AllPartsOfTwo(c, d);
    AllPartsOfTwo(e, e);
    AllPartsJoin([a, b], [c, d]);
    AllPartsJoin([a, b] + [c, d], [e]);
    assert [a, b] + [c, d] + [e] == [a, b, c, d, e];
  }

  // -------------------------------------------------------------------- specificity

  /** literal over parameter over `*` */
  function Kind(part: string): nat {
    if part != "" && part[0] == ':' then 2 else if part == "*" then 1 else 3
  }

  function Score(parts: seq<string>): nat {
    if parts == [] then 0 else Score(parts[..|parts| - 1]) + Kind(parts[|parts| - 1]) + 1
  }

  method ComputeSpecificity(path: string) returns (score: nat)
    ensures score == Score(Parts(path))
  {
    var segments := Parts(path);
    score := 0;
    var i := 0;
    while i < |segments|
      invariant 0 <= i <= |segments| && score + i == Score(segments[..i])
    {
      assert segments[..i + 1][..i] == segments[..i];
      var seg := segments[i];
      if seg != "" && seg[0] == ':' { score := score + 2; }
      else if seg == "*" { score := score + 1; }
      else { score := score + 3; }
      i := i + 1;
    }
    assert segments[..i] == segments;
    score := score + |segments|;
  }

  function Composed(reg: Registration, def: RouteDefinition): Route {
    var path := PathOf(reg, def);
    Route(def.httpMethod, path, def.handler, Score(Parts(path)))
  }

  function ComposedOf(reg: Registration, n: nat): seq<Route>
    requires n <= |reg.routes|
  {
    if n == 0 then [] else ComposedOf(reg, n - 1) + [Composed(reg, reg.routes[n - 1])]
  }

  function AllComposed(regs: seq<Registration>): seq<Route> {
    if regs == [] then [] else AllComposed(regs[..|regs| - 1]) + ComposedOf(regs[|regs| - 1], |regs[|regs| - 1].routes|)
  }

  // -------------------------------------------------------------------------- order

  /** compareBySpecificity(a, b) < 0 */
  predicate Before(a: Route, b: Route) {
    a.specificity > b.specificity || (a.specificity == b.specificity && |a.fullPath| > |b.fullPath|)
  }

  predicate Sorted(s: seq<Route>) { forall i, j :: 0 <= i < j < |s| ==> !Before(s[j], s[i]) }

  function Insert(s: seq<Route>, r: Route): seq<Route> {
    if s == [] then [r] else if Before(r, s[0]) then [r] + s else [s[0]] + Insert(s[1..], r)
  }

  /** A stable sort: later routes go after those they compare equal to. */
  function Sort(s: seq<Route>): seq<Route> {
    if s == [] then [] else Insert(Sort(s[..|s| - 1]), s[|s| - 1])
  }

  /** The routes of one rank, in order. */
  function Ranked(s: seq<Route>, specificity: nat, length: nat): seq<Route> {
    if s == [] then []
    else (if s[0].specificity == specificity && |s[0].fullPath| == length then [s[0]] else [])
         + Ranked(s[1..], specificity, length)
  }

  lemma {:induction false} InsertAdds(s: seq<Route>, r: Route)
    ensures multiset(Insert(s, r)) == multiset(s) + multiset{r}
  {
    if s != [] {
      assert s == [s[0]] + s[1..];
      if !Before(r, s[0]) { InsertAdds(s[1..], r); }
    }
  }

  lemma {:induction false} InsertSorts(s: seq<Route>, r: Route)
    requires Sorted(s)
    ensures Sorted(Insert(s, r))
  {
    if s != [] && !Before(r, s[0]) {
      InsertSorts(s[1..], r);
      InsertAdds(s[1..], r);
      var t := Insert(s[1..], r);
      forall j | 0 <= j < |t|
        ensures !Before(t[j], s[0])
      {
        assert t[j] in multiset(t);
        assert t[j] == r || t[j] in s[1..];
      }
    }
  }

  lemma {:induction false} InsertStable(s: seq<Route>, r: Route, specificity: nat, length: nat)
    requires Sorted(s)
    ensures Ranked(Insert(s, r), specificity, length)
            == Ranked(s, specificity, length) + Ranked([r], specificity, length)
  {
    assert [r][1..] == [];
    if s == [] {
      assert Ranked([], specificity, length) + Ranked([r], specificity, length) == Ranked([r], specificity, length);
    } else if Before(r, s[0]) {
      assert ([r] + s)[1..] == s;
      if r.specificity == specificity && |r.fullPath| == length {
        NoneRanked(s, specificity, length);
      }
    } else {
      InsertStable(s[1..], r, specificity, length);
      assert ([s[0]] + Insert(s[1..], r))[1..] == Insert(s[1..], r);
      var head := if s[0].specificity == specificity && |s[0].fullPath| == length then [s[0]] else [];
      Assoc(head, Ranked(s[1..], specificity, length), Ranked([r], specificity, length));
    }
  }

  lemma {:induction false} NoneRanked(s: seq<Route>, specificity: nat, length: nat)
    requires forall i :: 0 <= i < |s| ==> !(s[i].specificity == specificity && |s[i].fullPath| == length)
    ensures Ranked(s, specificity, length) == []
  {
    if s != [] { NoneRanked(s[1..], specificity, length); }
  }

  lemma {:induction false} RankedMore(s: seq<Route>, r: Route, specificity: nat, length: nat)
    ensures Ranked(s + [r], specificity, length) == Ranked(s, specificity, length) + Ranked([r], specificity, length)
  {
    if s == [] {
      assert s + [r] == [r];
      assert Ranked([], specificity, length) + Ranked([r], specificity, length) == Ranked([r], specificity, length);
    } else {
      assert (s + [r])[1..] == s[1..] + [r];
      RankedMore(s[1..], r, specificity, length);
      var head := if s[0].specificity == specificity && |s[0].fullPath| == length then [s[0]] else [];
      Assoc(head, Ranked(s[1..], specificity, length), Ranked([r], specificity, length));
    }
  }

  /** The sorted table holds the same routes, ordered, and routes of equal rank keep
      their registration order. */
  lemma {:induction false} SortIsStable(s: seq<Route>, specificity: nat, length: nat)
    ensures multiset(Sort(s)) == multiset(s) && Sorted(Sort(s))
    ensures Ranked(Sort(s), specificity, length) == Ranked(s, specificity, length)
  {
    if s != [] {
      var init, last := s[..|s| - 1], s[|s| - 1];
      assert s == init + [last];
      SortIsStable(init, specificity, length);
      InsertAdds(Sort(init), last);
      InsertSorts(Sort(init), last);
      InsertStable(Sort(init), last, specificity, length);
      RankedMore(init, last, specificity, length);
    }
  }

  // ---------------------------------------------------------------------- the table

  predicate NoDuplicates(s: seq<Route>) {
    forall i, j :: 0 <= i < j < |s| ==> s[i].httpMethod != s[j].httpMethod || s[i].fullPath != s[j].fullPath
  }

  predicate Seen(s: seq<Route>, m: Method, path: string) {
    exists i :: 0 <= i < |s| && s[i].httpMethod == m && s[i].fullPath == path
  }

  lemma OneMoreRoute(s: seq<Route>, r: Route)
    ensures NoDuplicates(s + [r]) <==> NoDuplicates(s) && !Seen(s, r.httpMethod, r.fullPath)
  {
    var t := s + [r];
    assert t[|s|] == r && forall k :: 0 <= k < |s| ==> t[k] == s[k];
  }

  lemma DuplicatesStay(s: seq<Route>, t: seq<Route>)
    requires s <= t && !NoDuplicates(s)
    ensures !NoDuplicates(t)
  {
    var i, j :| 0 <= i < j < |s| && s[i].httpMethod == s[j].httpMethod && s[i].fullPath == s[j].fullPath;
    assert t[i] == s[i] && t[j] == s[j];
  }

  lemma {:induction false} PrefixOfReg(reg: Registration, n: nat, m: nat)
    requires n <= m <= |reg.routes|
    ensures ComposedOf(reg, n) <= ComposedOf(reg, m)
  {
    if n < m { PrefixOfReg(reg, n, m - 1); }
  }

  lemma {:induction false} PrefixOfAll(regs: seq<Registration>, k: nat, n: nat)
    requires k < |regs| && n <= |regs[k].routes|
    ensures AllComposed(regs[..k]) + ComposedOf(regs[k], n) <= AllComposed(regs)
  {
    hide ComposedOf;
    var last := |regs| - 1;
    if k < last {
      PrefixOfAll(regs[..last], k, n);
      assert regs[..last][..k] == regs[..k];
    } else {
      PrefixOfReg(regs[k], n, |regs[k].routes|);
    }
  }

  lemma NoneYet()
    ensures NoDuplicates([])
  {
  }

  /** Throws exactly when two routes share method and path; otherwise the sorted table
      of all composed routes. */
  method BuildRoutes(registrations: seq<Registration>) returns (r: Result<seq<Route>>)
    ensures r.Ok? <==> NoDuplicates(AllComposed(registrations))
    ensures r.Ok? ==> r.value == Sort(AllComposed(registrations))
    ensures r.Ok? ==> forall i, j :: 0 <= i < j < |r.value| ==>
                        var a, b := r.value[i], r.value[j];
                        || a.specificity > b.specificity
                        || (a.specificity == b.specificity && |a.fullPath| >= |b.fullPath|)
  {
    hide PathOf, Parts, Score, Sort, NoDuplicates, Seen;
    var normalized, i := [], 0;
    NoneYet();
    while i < |registrations|
      invariant 0 <= i <= |registrations|
      invariant normalized == AllComposed(registrations[..i]) && NoDuplicates(normalized)
    {
      var reg := registrations[i];
      ghost var before := normalized;
      var j := 0;
      while j < |reg.routes|
        invariant 0 <= j <= |reg.routes|
        invariant normalized == before + ComposedOf(reg, j) && NoDuplicates(normalized)
      {
        var def := reg.routes[j];
        var path := PathOf(reg, def);
        Assoc(before, ComposedOf(reg, j), [Composed(reg, def)]);
        OneMoreRoute(normalized, Composed(reg, def));
        if Seen(normalized, def.httpMethod, path) {
          PrefixOfAll(registrations, i, j + 1);
          DuplicatesStay(normalized + [Composed(reg, def)], AllComposed(registrations));
          return Err("Duplicate route");
        }
        var specificity := ComputeSpecificity(path);
        normalized := normalized + [Route(def.httpMethod, path, def.handler, specificity)];
        j := j + 1;
      }
      assert registrations[..i + 1][..i] == registrations[..i];
      i := i + 1;
    }
    assert registrations[..i] == registrations;
    SortIsStable(normalized, 0, 0);
    return Ok(Sort(normalized));
  }

  // ------------------------------------------------------------------ first match wins

  predicate IsParameter(part: string) { ":" <= part }

  predicate IsWildcard(part: string) { part == "*" }

  predicate IsLiteral(part: string) { !IsParameter(part) && !IsWildcard(part) }

  /** A literal outdoes a parameter, and both outdo `*`. */
  predicate Outdoes(p: string, q: string) {
    (IsLiteral(p) && !IsLiteral(q)) || (IsParameter(p) && IsWildcard(q))
  }

  lemma KindOrders(p: string, q: string)
    ensures Outdoes(p, q) <==> Kind(p) > Kind(q)
  {
  }

  /** A pattern part against a path segment; `*` stands for one segment. */
  predicate PartMatches(part: string, segment: string) { IsParameter(part) || IsWildcard(part) || part == segment }

  predicate Matches(parts: seq<string>, segments: seq<string>) {
    |parts| == |segments| && forall k :: 0 <= k < |parts| ==> PartMatches(parts[k], segments[k])
  }

  predicate Answers(r: Route, m: Method, segments: seq<string>) {
    r.httpMethod == m && Matches(Parts(r.fullPath), segments)
  }

  predicate FirstMatch(table: seq<Route>, m: Method, segments: seq<string>, i: nat) {
    i < |table| && Answers(table[i], m, segments) && forall j :: 0 <= j < i ==> !Answers(table[j], m, segments)
  }

  /** Nowhere less specific, somewhere more. */
  predicate MoreSpecific(a: seq<string>, b: seq<string>) {
    && |a| == |b| && (forall k :: 0 <= k < |a| ==> !Outdoes(b[k], a[k]))
    && exists k :: 0 <= k < |a| && Outdoes(a[k], b[k])
  }

  lemma MoreSpecificScores(a: seq<string>, b: seq<string>)
    requires MoreSpecific(a, b)
    ensures Score(a) > Score(b)
  {
    hide Kind, Outdoes;
    forall k | 0 <= k < |a|
      ensures Kind(a[k]) >= Kind(b[k]) && (Outdoes(a[k], b[k]) ==> Kind(a[k]) > Kind(b[k]))
    {
      KindOrders(b[k], a[k]);
      KindOrders(a[k], b[k]);
    }
    ScoreMonotone(a, b);
  }

  function CountOf(parts: seq<string>, counts: string -> bool): nat {
    if parts == [] then 0 else CountOf(parts[..|parts| - 1], counts) + if counts(parts[|parts| - 1]) then 1 else 0
  }

  /** Four for a literal, three for a parameter, two for a `*`. */
  lemma {:induction false} ScoreCounts(parts: seq<string>)
    ensures Score(parts)
            == 4 * CountOf(parts, IsLiteral) + 3 * CountOf(parts, IsParameter) + 2 * CountOf(parts, IsWildcard)
  {
    if parts != [] { ScoreCounts(parts[..|parts| - 1]); }
  }

  lemma {:induction false} ScoreMonotone(a: seq<string>, b: seq<string>)
    requires |a| == |b| && forall k :: 0 <= k < |a| ==> Kind(a[k]) >= Kind(b[k])
    ensures Score(a) >= Score(b)
    ensures (exists k :: 0 <= k < |a| && Kind(a[k]) > Kind(b[k])) ==> Score(a) > Score(b)
  {
    if a != [] {
      var n := |a| - 1;
      ScoreMonotone(a[..n], b[..n]);
      if k :| 0 <= k < |a| && Kind(a[k]) > Kind(b[k]) {
        if k < n { assert Kind(a[..n][k]) > Kind(b[..n][k]); }
      }
    }
  }

  predicate Scored(table: seq<Route>) { forall r :: r in table ==> r.specificity == Score(Parts(r.fullPath)) }

  lemma {:induction false} ComposedAreScored(regs: seq<Registration>)
    ensures Scored(AllComposed(regs))
  {
    if regs != [] {
      ComposedAreScored(regs[..|regs| - 1]);
      RegIsScored(regs[|regs| - 1], |regs[|regs| - 1].routes|);
    }
  }

  lemma {:induction false} RegIsScored(reg: Registration, n: nat)
    requires n <= |reg.routes|
    ensures Scored(ComposedOf(reg, n))
  {
    if n > 0 { RegIsScored(reg, n - 1); }
  }

  /** The route a request gets outranks every other route that would answer it. */
  lemma FirstMatchOutranks(table: seq<Route>, m: Method, segments: seq<string>, i: nat, j: nat)
    requires Sorted(table) && FirstMatch(table, m, segments, i) && j < |table| && Answers(table[j], m, segments)
    ensures i <= j && !Before(table[j], table[i])
  {
  }

  /** First match over the built table never picks a pattern when another one that
      answers the same request is at least as specific in every segment and more in one. */
  lemma NeverShadowed(regs: seq<Registration>, m: Method, segments: seq<string>, i: nat, j: nat)
    requires var table := Sort(AllComposed(regs));
             FirstMatch(table, m, segments, i) && j < |table| && Answers(table[j], m, segments)
    ensures var table := Sort(AllComposed(regs));
            !MoreSpecific(Parts(table[j].fullPath), Parts(table[i].fullPath))
  {
    hide Parts, JoinPath, Answers, AllComposed, Sort;
    var all := AllComposed(regs);
    var table := Sort(all);
    SortIsStable(all, 0, 0);
    ComposedAreScored(regs);
    assert table[i] in multiset(table) && table[j] in multiset(table);
    assert table[i] in multiset(all) && table[j] in multiset(all);
    FirstMatchOutranks(table, m, segments, i, j);
    var a, b := Parts(table[j].fullPath), Parts(table[i].fullPath);
    if MoreSpecific(a, b) { MoreSpecificScores(a, b); }
  }
}
