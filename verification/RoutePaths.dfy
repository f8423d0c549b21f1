/** joinPath: composed route paths in their canonical form. */
module RoutePaths {
  import opened Types

  function TrimStart(s: string): string { if s != "" && IsBlank(s[0]) then TrimStart(s[1..]) else s }

  function TrimEnd(s: string): (r: string)
    ensures |r| <= |s| && r == s[..|r|]
  {
    if s != "" && IsBlank(s[|s| - 1]) then TrimEnd(s[..|s| - 1]) else s
  }

  function Trim(s: string): string { TrimEnd(TrimStart(s)) }

  predicate AllBlank(s: string) { forall k :: 0 <= k < |s| ==> IsBlank(s[k]) }

  /** Trimming takes blanks off both ends and leaves none there. */
  lemma TrimIs(s: string) returns (before: string, after: string)
    ensures s == before + Trim(s) + after && AllBlank(before) && AllBlank(after)
    ensures Trim(s) != "" ==> !IsBlank(Trim(s)[0]) && !IsBlank(Trim(s)[|Trim(s)| - 1])
  {
    before := TrimStartIs(s);
    after := TrimEndIs(TrimStart(s));
    assert Trim(s) != "" ==> Trim(s)[0] == TrimStart(s)[0];
  }

  lemma {:induction false} TrimStartIs(s: string) returns (before: string)
    ensures s == before + TrimStart(s) && AllBlank(before) && (TrimStart(s) != "" ==> !IsBlank(TrimStart(s)[0]))
  {
    if s != "" && IsBlank(s[0]) {
      before := TrimStartIs(s[1..]);
      before := [s[0]] + before;
    } else {
      before := "";
    }
  }

  lemma {:induction false} TrimEndIs(s: string) returns (after: string)
    ensures s == TrimEnd(s) + after && AllBlank(after)
    ensures TrimEnd(s) != "" ==> !IsBlank(TrimEnd(s)[|TrimEnd(s)| - 1])
  {
    if s != "" && IsBlank(s[|s| - 1]) {
      after := TrimEndIs(s[..|s| - 1]);
      after := after + [s[|s| - 1]];
    } else {
      after := "";
    }
  }

  /** A trimmed segment with a slash in front, if anything is left of it. */
  function Lead(s: string): string {
    var t := Trim(s);
    if t == "" then "" else if t[0] == '/' then t else "/" + t
  }

  function Combine(segments: seq<string>): string {
    if segments == [] then "" else Lead(segments[0]) + Combine(segments[1..])
  }

  /** Runs of slashes become one. */
  function Collapse(s: string): string {
    if |s| >= 2 && s[0] == '/' && s[1] == '/' then Collapse(s[1..])
    else if s == "" then "" else [s[0]] + Collapse(s[1..])
  }

  function DropEndSlashes(s: string): string {
    if s != "" && s[|s| - 1] == '/' then DropEndSlashes(s[..|s| - 1]) else s
  }

  function JoinPath(segments: seq<string>): string {
    var combined := DropEndSlashes(Collapse(Combine(segments)));
    if combined == "" then "/" else combined
  }

  // ---------------------------------------------------------------------- by segment

  function Run(s: string): (k: nat)
    ensures k <= |s| && (k < |s| ==> s[k] == '/') && forall i :: 0 <= i < k ==> s[i] != '/'
  {
    if s == "" || s[0] == '/' then 0 else 1 + Run(s[1..])
  }

  /** split('/') without the empty pieces. */
  function Parts(s: string): seq<string>
    decreases |s|
  {
    if s == "" then []
    else if s[0] == '/' then Parts(s[1..])
    else [s[..Run(s)]] + Parts(s[Run(s)..])
  }

  function AllParts(segments: seq<string>): seq<string> {
    if segments == [] then [] else Parts(Trim(segments[0])) + AllParts(segments[1..])
  }

  function Slashed(parts: seq<string>): string { if parts == [] then "" else "/" + (parts[0] + Slashed(parts[1..])) }

  /** The canonical form: one slash before each part, or the root. */
  function Render(parts: seq<string>): string { if parts == [] then "/" else Slashed(parts) }

  predicate Proper(parts: seq<string>) {
    forall i :: 0 <= i < |parts| ==> parts[i] != "" && forall k :: 0 <= k < |parts[i]| ==> parts[i][k] != '/'
  }

  lemma {:induction false} RunIs(p: string, rest: string)
    requires (forall k :: 0 <= k < |p| ==> p[k] != '/') && (rest == "" || rest[0] == '/')
    ensures Run(p + rest) == |p|
  {
    if p == "" {
      assert p + rest == rest;
    } else {
      assert (p + rest)[1..] == p[1..] + rest;
      RunIs(p[1..], rest);
    }
  }

  lemma {:induction false} PartsProper(s: string)
    ensures Proper(Parts(s))
    decreases |s|
  {
    if s != "" {
      if s[0] == '/' { PartsProper(s[1..]); } else { PartsProper(s[Run(s)..]); }
    }
  }

  /** Text after a slash adds its own parts. */
  lemma {:induction false} PartsJoin(a: string, b: string)
    requires b == "" || b[0] == '/'
    ensures Parts(a + b) == Parts(a) + Parts(b)
    decreases |a|
  {
    if a == "" {
      assert a + b == b;
    } else if a[0] == '/' {
      assert (a + b)[1..] == a[1..] + b;
      PartsJoin(a[1..], b);
    } else {
      var k := Run(a);
      assert a + b == a[..k] + (a[k..] + b);
      RunIs(a[..k], a[k..] + b);
      assert (a + b)[..k] == a[..k] && (a + b)[k..] == a[k..] + b;
      PartsJoin(a[k..], b);
      Assoc([a[..k]], Parts(a[k..]), Parts(b));
    }
  }

  lemma LeadParts(s: string)
    ensures Parts(Lead(s)) == Parts(Trim(s)) && (Lead(s) == "" || Lead(s)[0] == '/')
  {
    var t := Trim(s);
    if t != "" && t[0] != '/' { assert ("/" + t)[1..] == t; }
  }

  lemma {:induction false} CombineParts(segments: seq<string>)
    ensures Parts(Combine(segments)) == AllParts(segments) && (Combine(segments) == "" || Combine(segments)[0] == '/')
  {
    if segments != [] {
      LeadParts(segments[0]);
      CombineParts(segments[1..]);
      PartsJoin(Lead(segments[0]), Combine(segments[1..]));
    }
  }

  lemma CollapseStart(s: string)
    ensures s != "" ==> Collapse(s) != "" && Collapse(s)[0] == s[0]
    ensures s == "" ==> Collapse(s) == ""
  {
    if s != "" && s[1..] != "" { CollapseStart(s[1..]); }
  }

  lemma {:induction false} CollapsePlain(p: string, rest: string)
    requires (forall k :: 0 <= k < |p| ==> p[k] != '/')
    ensures Collapse(p + rest) == p + Collapse(rest)
  {
    if p == "" {
      assert p + rest == rest;
    } else {
      assert (p + rest)[1..] == p[1..] + rest;
      CollapsePlain(p[1..], rest);
      Assoc([p[0]], p[1..], Collapse(rest));
      assert [p[0]] + p[1..] == p;
    }
  }

  /** A piece without slashes is kept as it is. */
  lemma CollapseRun(s: string)
    ensures Run(Collapse(s)) == Run(s) && Collapse(s)[..Run(s)] == s[..Run(s)]
    ensures Collapse(s)[Run(s)..] == Collapse(s[Run(s)..])
  {
    hide Collapse, Run;
    var p, rest := s[..Run(s)], s[Run(s)..];
    assert s == p + rest;
    CollapsePlain(p, rest);
    CollapseStart(rest);
    RunIs(p, Collapse(rest));
  }

  lemma {:induction false} CollapseParts(s: string)
    ensures Parts(Collapse(s)) == Parts(s)
    ensures s != "" ==> Collapse(s) != "" && Collapse(s)[0] == s[0]
    decreases |s|
  {
    CollapseStart(s);
    if s != "" {
      if s[0] == '/' {
        CollapseParts(s[1..]);
        assert |s| < 2 || s[1] != '/' ==> Collapse(s)[1..] == Collapse(s[1..]);
      } else {
        CollapseRun(s);
        CollapseParts(s[Run(s)..]);
      }
    }
  }

  /** No two slashes in a row. */
  predicate Single(s: string) { forall i :: 0 <= i && i + 1 < |s| ==> !(s[i] == '/' && s[i + 1] == '/') }

  lemma {:induction false} CollapseSingle(s: string)
    ensures Single(Collapse(s))
  {
    if s != "" {
      CollapseSingle(s[1..]);
      CollapseParts(s);
      CollapseParts(s[1..]);
      if !(|s| >= 2 && s[0] == '/' && s[1] == '/') {
        var c := Collapse(s);
        assert c[1..] == Collapse(s[1..]);
        forall i | 0 <= i && i + 1 < |c|
          ensures !(c[i] == '/' && c[i + 1] == '/')
        {
          if i > 0 { assert c[i] == c[1..][i - 1] && c[i + 1] == c[1..][i]; }
        }
      }
    }
  }

  lemma {:induction false} DropEndParts(s: string)
    ensures Parts(DropEndSlashes(s)) == Parts(s)
    ensures DropEndSlashes(s) <= s && (DropEndSlashes(s) != "" ==> DropEndSlashes(s)[|DropEndSlashes(s)| - 1] != '/')
  {
    if s != "" && s[|s| - 1] == '/' {
      var init := s[..|s| - 1];
      DropEndParts(init);
      assert s == init + "/";
      PartsJoin(init, "/");
      assert Parts("/") == Parts("/"[1..]);
    }
  }

  predicate CanonicalPath(s: string) { Single(s) && (s == "" || (s[0] == '/' && s[|s| - 1] != '/')) }

  lemma RestIsCanonical(s: string, k: nat)
    requires CanonicalPath(s) && s != "" && k == Run(s[1..])
    ensures k >= 1 && CanonicalPath(s[1..][k..])
  {
    var rest := s[1..][k..];
    assert s[1..] != "" && s[1..][0] == s[1];
    assert forall i :: 0 <= i < |rest| ==> rest[i] == s[1 + k + i];
  }

  /** A text with a slash in front, none doubled and none at the end is its parts' form. */
  lemma {:induction false} CanonicalIsSlashed(s: string)
    requires CanonicalPath(s)
    ensures s == Slashed(Parts(s))
    decreases |s|
  {
    hide Single;
    if s != "" {
      var t := s[1..];
      var k := Run(t);
      RestIsCanonical(s, k);
      CanonicalIsSlashed(t[k..]);
      assert Parts(t) == [t[..k]] + Parts(t[k..]);
      assert s == "/" + (t[..k] + t[k..]);
    }
  }

  /** Whatever the segments, the joined path is the canonical form of their parts. */
  lemma JoinIsRender(segments: seq<string>)
    ensures JoinPath(segments) == Render(AllParts(segments))
  {
    hide Parts, Combine, Collapse, DropEndSlashes, Slashed, Single;
    var s := Combine(segments);
    var c := Collapse(s);
    var d := DropEndSlashes(c);
    CombineParts(segments);
    CollapseParts(s);
    CollapseSingle(s);
    DropEndParts(c);
    if s == "" {
      NothingLeft();
    } else {
      PrefixSingle(c, d);
      CanonicalIsSlashed(d);
      SlashedEmptyIff(Parts(d));
    }
  }

  lemma NothingLeft()
    ensures Parts("") == [] && Collapse("") == "" && DropEndSlashes("") == "" && Slashed([]) == ""
  {
  }

  lemma PrefixSingle(c: string, d: string)
    requires Single(c) && d <= c
    ensures Single(d) && (d != "" && c != "" ==> d[0] == c[0])
  {
  }

  lemma SlashedEmptyIff(parts: seq<string>)
    ensures Slashed(parts) == "" <==> parts == []
  {
  }

  // ------------------------------------------------------------ joining joined paths

  predicate EndsBlank(s: string) { s != "" && IsBlank(s[|s| - 1]) }

  lemma {:induction false} PartsOfSlashed(parts: seq<string>)
    requires Proper(parts)
    ensures Parts(Slashed(parts)) == parts
  {
    if parts != [] {
      var rest := Slashed(parts[1..]);
      PartsOfSlashed(parts[1..]);
      var tail := parts[0] + rest;
      assert Slashed(parts)[1..] == tail;
      RunIs(parts[0], rest);
      assert tail[..|parts[0]|] == parts[0] && tail[|parts[0]|..] == rest;
    }
  }

  lemma PartsOfRender(parts: seq<string>)
    requires Proper(parts)
    ensures Parts(Render(parts)) == parts
  {
    PartsOfSlashed(parts);
    assert Parts("/") == Parts("/"[1..]);
  }

  lemma {:induction false} TrimEndKeeps(s: string)
    ensures TrimEnd(s) == s <==> !EndsBlank(s)
    ensures s != "" && !IsBlank(s[0]) ==> TrimEnd(s) != ""
  {
    if s != "" && IsBlank(s[|s| - 1]) { TrimEndKeeps(s[..|s| - 1]); }
  }

  lemma TrimPath(s: string)
    requires s != "" && s[0] == '/'
    ensures Trim(s) != "" && Trim(s)[0] == '/' && |Trim(s)| <= |s| && (Trim(s) == s <==> !EndsBlank(s))
    ensures EndsBlank(s) ==> |Trim(s)| < |s|
  {
    TrimEndKeeps(s);
  }

  lemma {:induction false} PartsAreShorter(t: string)
    ensures |Slashed(Parts(t))| <= |t| + (if t != "" && t[0] != '/' then 1 else 0)
    decreases |t|
  {
    if t != "" {
      if t[0] == '/' { PartsAreShorter(t[1..]); } else { PartsAreShorter(t[Run(t)..]); }
    }
  }

  lemma {:induction false} AllProper(segments: seq<string>)
    ensures Proper(AllParts(segments))
  {
    if segments != [] {
      PartsProper(Trim(segments[0]));
      AllProper(segments[1..]);
      var a, b := Parts(Trim(segments[0])), AllParts(segments[1..]);
      assert forall i :: 0 <= i < |a + b| ==> (a + b)[i] == if i < |a| then a[i] else b[i - |a|];
    }
  }

  lemma RenderStarts(parts: seq<string>)
    ensures Render(parts) != "" && Render(parts)[0] == '/' && |Render(parts)| == if parts == [] then 1
            else |Slashed(parts)|
    ensures Proper(parts) && parts != [] ==> |Slashed(parts)| >= 2
  {
  }

  /** A joined path taken as a segment again gives its own parts, or fewer characters
      when it ends in a blank. */
  lemma SegmentAgain(parts: seq<string>)
    requires Proper(parts)
    ensures !EndsBlank(Render(parts)) ==> Parts(Trim(Render(parts))) == parts
    ensures EndsBlank(Render(parts)) ==> |Slashed(Parts(Trim(Render(parts))))| < |Slashed(parts)| && parts != []
    ensures |Slashed(Parts(Trim(Render(parts))))| <= |Slashed(parts)|
  {
    hide Parts, Slashed, Trim;
    var p := Render(parts);
    RenderStarts(parts);
    TrimPath(p);
    PartsOfRender(parts);
    PartsAreShorter(Trim(p));
    SlashedEmptyIff(parts);
  }

  lemma {:induction false} SlashedJoin(a: seq<string>, b: seq<string>)
    ensures |Slashed(a + b)| == |Slashed(a)| + |Slashed(b)|
  {
    if a == [] {
      assert a + b == b;
    } else {
      assert (a + b)[1..] == a[1..] + b;
      SlashedJoin(a[1..], b);
    }
  }

  lemma {:induction false} AllPartsJoin(xs: seq<string>, ys: seq<string>)
    ensures AllParts(xs + ys) == AllParts(xs) + AllParts(ys)
  {
    if xs == [] {
      assert xs + ys == ys;
    } else {
      assert (xs + ys)[1..] == xs[1..] + ys;
      AllPartsJoin(xs[1..], ys);
      Assoc(Parts(Trim(xs[0])), AllParts(xs[1..]), AllParts(ys));
    }
  }

  lemma AllPartsOfTwo(p: string, q: string)
    ensures AllParts([p, q]) == Parts(Trim(p)) + Parts(Trim(q)) && AllParts([p]) == Parts(Trim(p))
  {
    assert [p, q][1..] == [q] && [q][1..] == [] && [p][1..] == [];
    assert AllParts([]) == [];
    assert AllParts([q]) == Parts(Trim(q)) + AllParts([]);
  }

  lemma RendersDiffer(a: seq<string>, b: seq<string>)
    requires |Slashed(a)| < |Slashed(b)| && Proper(b)
    ensures Render(a) != Render(b)
  {
    hide Slashed;
    RenderStarts(a);
    RenderStarts(b);
    SlashedEmptyIff(b);
  }

  /** Joining what was joined: grouping makes no difference exactly when neither group's
      own path ends in a blank, which the second trim would take away. */
  lemma JoinIsAssociativeIff(xs: seq<string>, ys: seq<string>)
    ensures JoinPath([JoinPath(xs), JoinPath(ys)]) == JoinPath(xs + ys)
            <==> !EndsBlank(JoinPath(xs)) && !EndsBlank(JoinPath(ys))
  {
    hide Parts, Slashed, Trim, JoinPath, AllParts, Render, EndsBlank, Proper;
    var a, b := AllParts(xs), AllParts(ys);
    var p, q := JoinPath(xs), JoinPath(ys);
    JoinIsRender(xs);
    JoinIsRender(ys);
    JoinIsRender(xs + ys);
    JoinIsRender([p, q]);
    AllPartsJoin(xs, ys);
    AllPartsOfTwo(p, q);
    AllProper(xs);
    AllProper(ys);
    AllProper(xs + ys);
    SegmentAgain(a);
    SegmentAgain(b);
    SlashedJoin(a, b);
    SlashedJoin(Parts(Trim(p)), Parts(Trim(q)));
    if EndsBlank(p) || EndsBlank(q) {
      RendersDiffer(Parts(Trim(p)) + Parts(Trim(q)), a + b);
    }
  }

  /** A joined path joined again is itself exactly when it does not end in a blank. */
  lemma JoinIsIdempotentIff(xs: seq<string>)
    ensures JoinPath([JoinPath(xs)]) == JoinPath(xs) <==> !EndsBlank(JoinPath(xs))
  {
    hide Parts, Slashed, Trim, JoinPath, AllParts, Render, EndsBlank, Proper;
    var p := JoinPath(xs);
    JoinIsRender(xs);
    JoinIsRender([p]);
    AllPartsOfTwo(p, p);
    AllProper(xs);
    SegmentAgain(AllParts(xs));
    if EndsBlank(p) {
      RendersDiffer(Parts(Trim(p)), AllParts(xs));
    }
  }

  /** A blank before a trailing slash outlives the first join and not the second. */
  lemma BlankBeforeSlash()
    ensures JoinPath(["a /"]) == "/a " && JoinPath([JoinPath(["a /"])]) != JoinPath(["a /"])
    ensures JoinPath([JoinPath(["a /"]), JoinPath(["b"])]) != JoinPath(["a /"] + ["b"])
  {
    hide JoinPath;
    var s := "a /";
    assert Trim(s) == s;
    assert s[2..] == "/" && "/"[1..] == "" && s[..2] == "a ";
    assert Run(s) == 2 by { assert s[1..] == " /" && s[1..][1..] == "/"; }
    assert Parts(s) == ["a "] + Parts("/") && Parts("/") == Parts("");
    AllPartsOfTwo(s, s);
    JoinIsRender([s]);
    assert Slashed(["a "]) == "/" + ("a " + Slashed([])) by { assert ["a "][1..] == []; }
    assert JoinPath([s]) == "/a ";
    assert EndsBlank("/a ");
    JoinIsIdempotentIff([s]);
    JoinIsAssociativeIff([s], ["b"]);
  }
}
