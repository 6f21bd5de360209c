/** The release gate's dependency search (cmd/check-release-modules/main.go). */
module ReleaseGraph {
  import opened Wrappers

  type Name = string

  const RELEASE := "release"

  datatype Edge = Edge(target: Name, kind: string, condition: string)

  /** A module: its status, and its dependency edges unless they could not be derived. */
  datatype Service = Service(status: string, deps: Option<seq<Edge>>)

  type Graph = map<Name, Service>

  datatype Finding = Finding(release: Name, consumer: Name, edge: Edge, status: string, path: seq<Name>)

  // ------------------------------------------------------- reachability

  /** A module the search can pass: known, its edges derivable, every target known. */
  predicate Sound(g: Graph, n: Name) {
    n in g && g[n].deps.Some? && forall i :: 0 <= i < |g[n].deps.value| ==> g[n].deps.value[i].target in g
  }

  predicate Step(g: Graph, a: Name, b: Name) {
    a in g && g[a].deps.Some? && exists i :: 0 <= i < |g[a].deps.value| && g[a].deps.value[i].target == b
  }

  predicate PathTo(g: Graph, root: Name, n: Name, p: seq<Name>) {
    p != [] && p[0] == root && p[|p| - 1] == n && forall i :: 0 <= i < |p| - 1 ==> Step(g, p[i], p[i + 1])
  }

  ghost predicate Reaches(g: Graph, root: Name, n: Name) {
    exists p :: PathTo(g, root, n, p)
  }

  ghost predicate Closed(g: Graph, s: set<Name>) {
    forall a, b :: a in s && Step(g, a, b) ==> b in s
  }

  /** A closed set holding the root holds everything reachable from it. */
  lemma {:induction false} ClosedHoldsReachable(g: Graph, s: set<Name>, root: Name, n: Name, p: seq<Name>)
    requires Closed(g, s) && root in s && PathTo(g, root, n, p)
    ensures n in s
    decreases |p|
  {
    if |p| > 1 {
      var init := p[..|p| - 1];
      assert PathTo(g, root, init[|init| - 1], init);
      ClosedHoldsReachable(g, s, root, init[|init| - 1], init);
      assert Step(g, p[|p| - 2], p[|p| - 2 + 1]);
    }
  }

  // ------------------------------------------------------- what a root's findings should be

  /** The edges to non-release modules among `deps`, in order. */
  function Blocking(g: Graph, deps: seq<Edge>): seq<Edge> {
    if deps == [] then []
    else
      var e := deps[|deps| - 1];
      Blocking(g, deps[..|deps| - 1]) + (if e.target in g && g[e.target].status != RELEASE then [e] else [])
  }

  function BlockingOf(g: Graph, n: Name): seq<Edge> {
    if n in g && g[n].deps.Some? then Blocking(g, g[n].deps.value) else []
  }

  /** The edges reported with consumer `n`, in order. */
  function Reported(fs: seq<Finding>, n: Name): seq<Edge> {
    if fs == [] then []
    else Reported(fs[..|fs| - 1], n) + (if fs[|fs| - 1].consumer == n then [fs[|fs| - 1].edge] else [])
  }

  /** The path is real: it leads from the root to the consumer and over the reported edge. */
  predicate Genuine(g: Graph, root: Name, f: Finding) {
    f.release == root && |f.path| >= 2 && PathTo(g, root, f.edge.target, f.path) &&
    f.path[|f.path| - 2] == f.consumer &&
    f.edge.target in g && f.status == g[f.edge.target].status != RELEASE
  }

  predicate AllGenuine(g: Graph, root: Name, fs: seq<Finding>) {
    forall i :: 0 <= i < |fs| ==> Genuine(g, root, fs[i])
  }

  /** Exactly the blocking edges of the modules reachable from the root, each once, each with a real path. */
  ghost predicate Exact(g: Graph, root: Name, fs: seq<Finding>) {
    AllGenuine(g, root, fs) &&
    forall n :: Reported(fs, n) == if Reaches(g, root, n) then BlockingOf(g, n) else []
  }

  lemma ReportedSnoc(a: seq<Finding>, f: Finding, n: Name)
    ensures Reported(a + [f], n) == Reported(a, n) + if f.consumer == n then [f.edge] else []
  {
    assert (a + [f])[..|a|] == a;
  }

  lemma BlockingStep(g: Graph, deps: seq<Edge>, i: nat)
    requires i < |deps|
    ensures Blocking(g, deps[..i + 1])
            == Blocking(g, deps[..i])
               + if deps[i].target in g && g[deps[i].target].status != RELEASE then [deps[i]] else []
  {
    assert deps[..i + 1][..i] == deps[..i];
  }

  // ------------------------------------------------------- the search

  /** What visiting added: the blocking edges of each newly seen module, once. */
  ghost predicate Grew(g: Graph, s0: set<Name>, f0: seq<Finding>, s1: set<Name>, f1: seq<Finding>) {
    s0 <= s1 && forall n :: Added(g, s0, f0, s1, f1, n)
  }

  ghost predicate Added(g: Graph, s0: set<Name>, f0: seq<Finding>, s1: set<Name>, f1: seq<Finding>, n: Name) {
    Reported(f1, n) == Reported(f0, n) + if n in s1 && n !in s0 then BlockingOf(g, n) else []
  }

  /** Every newly seen module could be passed, and its targets were seen too. */
  ghost predicate Explored(g: Graph, s0: set<Name>, s1: set<Name>) {
    forall a :: a in s1 && a !in s0 ==> Followed(g, a, s1)
  }

  ghost predicate Followed(g: Graph, a: Name, s: set<Name>) {
    Sound(g, a) && forall i :: 0 <= i < |g[a].deps.value| ==> g[a].deps.value[i].target in s
  }

  ghost predicate AllReached(g: Graph, root: Name, s: set<Name>) {
    forall n :: n in s ==> Reaches(g, root, n)
  }

  ghost predicate Faulty(g: Graph, root: Name) {
    exists n :: Reaches(g, root, n) && !Sound(g, n)
  }

  /** Part-way through a module's edges: the first `i` are reported. */
  ghost predicate PartlyGrew(g: Graph, name: Name, deps: seq<Edge>, s0: set<Name>, f0: seq<Finding>, s1: set<Name>,
                             f1: seq<Finding>) {
    s0 <= s1 && name in s1 && name !in s0 && Reported(f1, name) == Reported(f0, name) + Blocking(g, deps) &&
    forall n :: n != name ==> Added(g, s0, f0, s1, f1, n)
  }

  /** And followed. */
  ghost predicate PartlyExplored(g: Graph, name: Name, deps: seq<Edge>, s0: set<Name>, s1: set<Name>) {
    (forall a :: a in s1 && a !in s0 && a != name ==> Followed(g, a, s1)) &&
    (forall k :: 0 <= k < |deps| ==> deps[k].target in g && deps[k].target in s1)
  }

  /** Reporting the next edge, when it blocks, then visiting its target. */
  lemma PartlyGrewAdvances(g: Graph, name: Name, deps: seq<Edge>, f: Finding, s0: set<Name>, f0: seq<Finding>,
                           s1: set<Name>, f1: seq<Finding>, f2: seq<Finding>, s3: set<Name>, f3: seq<Finding>)
    requires f.consumer == name && f.edge.target in g && PartlyGrew(g, name, deps, s0, f0, s1, f1)
    requires f2 == if g[f.edge.target].status != RELEASE then f1 + [f] else f1
    requires Grew(g, s1, f2, s3, f3)
    ensures PartlyGrew(g, name, deps + [f.edge], s0, f0, s3, f3)
  {
    assert Reported(f3, name) == Reported(f0, name) + Blocking(g, deps + [f.edge]) by {
      assert Added(g, s1, f2, s3, f3, name);
      assert (deps + [f.edge])[..|deps|] == deps;
      ReportedSnoc(f1, f, name);
    }
    forall n | n != name
      ensures Added(g, s0, f0, s3, f3, n)
    {
      assert Added(g, s1, f2, s3, f3, n) && Added(g, s0, f0, s1, f1, n);
      ReportedSnoc(f1, f, n);
    }
  }

  lemma PartlyExploredAdvances(g: Graph, name: Name, deps: seq<Edge>, e: Edge, s0: set<Name>, s1: set<Name>,
                               s3: set<Name>)
    requires PartlyExplored(g, name, deps, s0, s1) && Explored(g, s1, s3) && s1 <= s3 && e.target in g && e.target in s3
    ensures PartlyExplored(g, name, deps + [e], s0, s3)
  {
    forall a | a in s3 && a !in s0 && a != name
      ensures Followed(g, a, s3)
    {
      if a in s1 { assert Followed(g, a, s1); }
    }
  }

  lemma SearchStarts(g: Graph, name: Name, deps: seq<Edge>, s: set<Name>, fs: seq<Finding>)
    requires name !in s
    ensures PartlyGrew(g, name, deps[..0], s, fs, s + {name}, fs) && PartlyExplored(g, name, deps[..0], s, s + {name})
  {
    assert deps[..0] == [];
  }

  lemma SearchAdvances(g: Graph, name: Name, deps: seq<Edge>, i: nat, f: Finding, s0: set<Name>, f0: seq<Finding>,
                       s1: set<Name>, f1: seq<Finding>, f2: seq<Finding>, s3: set<Name>, f3: seq<Finding>)
    requires i < |deps| && f.consumer == name && f.edge == deps[i] && f.edge.target in g && f.edge.target in s3
    requires PartlyGrew(g, name, deps[..i], s0, f0, s1, f1) && PartlyExplored(g, name, deps[..i], s0, s1)
    requires f2 == if g[f.edge.target].status != RELEASE then f1 + [f] else f1
    requires Grew(g, s1, f2, s3, f3) && Explored(g, s1, s3)
    ensures PartlyGrew(g, name, deps[..i + 1], s0, f0, s3, f3) && PartlyExplored(g, name, deps[..i + 1], s0, s3)
  {
    assert deps[..i + 1] == deps[..i] + [f.edge];
    PartlyGrewAdvances(g, name, deps[..i], f, s0, f0, s1, f1, f2, s3, f3);
    PartlyExploredAdvances(g, name, deps[..i], f.edge, s0, s1, s3);
  }

  lemma SearchEnds(g: Graph, name: Name, s0: set<Name>, f0: seq<Finding>, s1: set<Name>, f1: seq<Finding>)
    requires name in g && g[name].deps.Some?
    requires var deps := g[name].deps.value;
             PartlyGrew(g, name, deps[..|deps|], s0, f0, s1, f1) && PartlyExplored(g, name, deps[..|deps|], s0, s1)
    ensures Grew(g, s0, f0, s1, f1) && Explored(g, s0, s1)
  {
    var deps := g[name].deps.value;
    assert deps[..|deps|] == deps;
    assert Followed(g, name, s1);
    assert Added(g, s0, f0, s1, f1, name);
  }

  lemma PathExtends(g: Graph, root: Name, name: Name, path: seq<Name>, i: nat)
    requires PathTo(g, root, name, path) && name in g && g[name].deps.Some? && i < |g[name].deps.value|
    ensures PathTo(g, root, g[name].deps.value[i].target, path + [g[name].deps.value[i].target])
  {
    var next := path + [g[name].deps.value[i].target];
    forall k | 0 <= k < |next| - 1
      ensures Step(g, next[k], next[k + 1])
    {
      if k < |path| - 1 { assert Step(g, path[k], path[k + 1]); }
    }
  }

  /** A search from nothing that succeeds is exact, and nothing it reached was faulty. */
  lemma SearchIsExact(g: Graph, root: Name, s: set<Name>, fs: seq<Finding>)
    requires AllGenuine(g, root, fs) && AllReached(g, root, s) && root in s
    requires Grew(g, {}, [], s, fs) && Explored(g, {}, s)
    ensures Exact(g, root, fs)
    ensures !Faulty(g, root)
  {
    assert Closed(g, s) by {
      forall a, b | a in s && Step(g, a, b)
        ensures b in s
      {
        assert Followed(g, a, s);
      }
    }
    forall n | Reaches(g, root, n)
      ensures n in s
    {
      var p :| PathTo(g, root, n, p);
      ClosedHoldsReachable(g, s, root, n, p);
    }
    forall n
      ensures Reported(fs, n) == if Reaches(g, root, n) then BlockingOf(g, n) else []
    {
      assert Added(g, {}, [], s, fs, n);
    }
    forall n | Reaches(g, root, n)
      ensures Sound(g, n)
    {
      assert Followed(g, n, s);
    }
  }

  class Review {
    const all: Graph
    const root: Name
    var seen: set<Name>
    var findings: seq<Finding>
    var passed: bool

    constructor (all: Graph, root: Name)
      ensures this.all == all && this.root == root && seen == {} && findings == [] && passed
    {
      this.all, this.root := all, root;
      seen, findings, passed := {}, [], true;
    }

    ghost predicate Valid()
      reads this
    {
      AllGenuine(all, root, findings) && AllReached(all, root, seen) && (passed <==> findings == [])
    }

    method Visit(name: Name, path: seq<Name>) returns (ok: bool)
      requires Valid() && PathTo(all, root, name, path)
      modifies this
      ensures Valid()
      ensures ok ==>
                name in seen && Grew(all, old(seen), old(findings), seen, findings) &&
                Explored(all, old(seen), seen)
      ensures !ok ==> Faulty(all, root)
      decreases all.Keys - seen, 0
    {
      ghost var s0, f0 := seen, findings;
      if name in seen { return true; }
      seen := seen + {name};
      assert Reaches(all, root, name);
      if name !in all { return false; }
      if all[name].deps.None? { return false; }
      var deps := all[name].deps.value;
      SearchStarts(all, name, deps, s0, findings);
      var i := 0;
      while i < |deps|
        invariant i <= |deps| && Valid()
        invariant PartlyGrew(all, name, deps[..i], s0, f0, seen, findings)
        invariant PartlyExplored(all, name, deps[..i], s0, seen)
      {
        var followed := Follow(name, path, i, s0, f0);
        if !followed { return false; }
        i := i + 1;
      }
      SearchEnds(all, name, s0, f0, seen, findings);
      ok := true;
    }

    /** One edge of a visited module: report it if it blocks, then visit its target. */
    method Follow(name: Name, path: seq<Name>, i: nat, ghost s0: set<Name>, ghost f0: seq<Finding>) returns (ok: bool)
      requires Valid() && PathTo(all, root, name, path) && name in all && all[name].deps.Some?
      requires i < |all[name].deps.value|
      requires PartlyGrew(all, name, all[name].deps.value[..i], s0, f0, seen, findings)
      requires PartlyExplored(all, name, all[name].deps.value[..i], s0, seen)
      modifies this
      ensures Valid()
      ensures ok ==>
                PartlyGrew(all, name, all[name].deps.value[..i + 1], s0, f0, seen, findings) &&
                PartlyExplored(all, name, all[name].deps.value[..i + 1], s0, seen)
      ensures !ok ==> Faulty(all, root)
      decreases all.Keys - seen, 1
    {
      var e := all[name].deps.value[i];
      assert Reaches(all, root, name);
      if e.target !in all {
        assert !Sound(all, name);
        return false;
      }
      var next := path + [e.target];
      PathExtends(all, root, name, path, i);
      ghost var s1, f1 := seen, findings;
      var f := Finding(root, name, e, all[e.target].status, next);
      if f.status != RELEASE { Report(f); }
      ghost var f2 := findings;
      ok := Visit(e.target, next);
      if ok { SearchAdvances(all, name, all[name].deps.value, i, f, s0, f0, s1, f1, f2, seen, findings); }
    }

    method Report(f: Finding)
      requires Valid() && Genuine(all, root, f)
      modifies this`findings, this`passed
      ensures Valid() && findings == old(findings) + [f]
    {
      findings := findings + [f];
      passed := false;
    }
  }

  // ------------------------------------------------------- the whole inspection

  datatype Report = Report(release: seq<Name>, excluded: seq<Name>, findings: seq<Finding>, passed: bool)

  function Flatten(parts: seq<seq<Finding>>): seq<Finding> {
    if parts == [] then [] else Flatten(parts[..|parts| - 1]) + parts[|parts| - 1]
  }

  /** The report a clean inspection of `roots` must give. */
  ghost predicate Faithful(g: Graph, roots: seq<Name>, findings: seq<Finding>, passed: bool, parts: seq<seq<Finding>>) {
    |parts| == |roots| && findings == Flatten(parts) &&
    (forall i :: 0 <= i < |roots| ==> Exact(g, roots[i], parts[i])) &&
    (passed <==> findings == [])
  }

  /** The gate passes exactly when no root reaches a module with a non-release dependency. */
  lemma {:induction false} PassesIffNothingBlocks(g: Graph, roots: seq<Name>, findings: seq<Finding>, passed: bool,
                                                  parts: seq<seq<Finding>>)
    requires Faithful(g, roots, findings, passed, parts)
    ensures passed <==> forall i, n :: 0 <= i < |roots| && Reaches(g, roots[i], n) ==> BlockingOf(g, n) == []
  {
    FlattenEmptyIff(parts);
    forall i | 0 <= i < |roots|
      ensures parts[i] == [] <==> forall n :: Reaches(g, roots[i], n) ==> BlockingOf(g, n) == []
    {
      ExactEmptyIff(g, roots[i], parts[i]);
    }
  }

  lemma {:induction false} FlattenEmptyIff(parts: seq<seq<Finding>>)
    ensures Flatten(parts) == [] <==> forall i :: 0 <= i < |parts| ==> parts[i] == []
    decreases |parts|
  {
    if parts != [] {
      FlattenEmptyIff(parts[..|parts| - 1]);
      assert |Flatten(parts)| == |Flatten(parts[..|parts| - 1])| + |parts[|parts| - 1]|;
    }
  }

  lemma ExactEmptyIff(g: Graph, root: Name, fs: seq<Finding>)
    requires Exact(g, root, fs)
    ensures fs == [] <==> forall n :: Reaches(g, root, n) ==> BlockingOf(g, n) == []
  {
    if fs != [] {
      var n := fs[|fs| - 1].consumer;
      assert |Reported(fs, n)| > 0;
      assert Reaches(g, root, n) && BlockingOf(g, n) != [];
    } else {
      forall n | Reaches(g, root, n)
        ensures BlockingOf(g, n) == []
      {
        assert Reported(fs, n) == [];
      }
    }
  }

  predicate Released(g: Graph, n: Name) {
    n in g && g[n].status == RELEASE
  }

  /** `part` holds each name of `names` that satisfies `p` as often as `names` does, and no other. */
  ghost predicate AsOften(part: seq<Name>, names: seq<Name>, p: Name -> bool) {
    forall n :: multiset(part)[n] == if p(n) then multiset(names)[n] else 0
  }

  /** `inspect`: `names` lists every module once; `requested`, when not empty, restricts the roots. */
  method Inspect(all: Graph, names: seq<Name>, requested: seq<Name>)
    returns (r: Option<Report>, ghost parts: seq<seq<Finding>>)
    requires forall n :: n in names <==> n in all
    ensures r.Some? ==>
      Faithful(all, r.value.release, r.value.findings, r.value.passed, parts) &&
      (forall n :: n in r.value.release <==> if requested == [] then Released(all, n) else n in requested) &&
      (requested != [] ==> r.value.release == requested) &&
      (forall n :: n in r.value.excluded <==> n in all && !Released(all, n)) &&
      (forall n :: n in r.value.release ==> Released(all, n)) &&
      (requested == [] ==> AsOften(r.value.release, names, n => Released(all, n))) &&
      AsOften(r.value.excluded, names, n => !Released(all, n))
    ensures r.None? <==>
      (exists n :: n in requested && !Released(all, n)) ||
      (exists n :: (if requested == [] then Released(all, n) else n in requested) && Faulty(all, n))
  {
    var release, excluded := Partition(all, names);
    if requested != [] {
      var unreleased := FirstUnreleased(all, requested);
      if unreleased { return None, []; }
      release := requested;
    }
    var reviewed;
    reviewed, parts := ReviewAll(all, release);
    if reviewed.None? { return None, []; }
    r := Some(Report(release, excluded, reviewed.value.0, reviewed.value.1));
  }

  method ReviewAll(all: Graph, roots: seq<Name>)
    returns (r: Option<(seq<Finding>, bool)>, ghost parts: seq<seq<Finding>>)
    ensures r.Some? ==> Faithful(all, roots, r.value.0, r.value.1, parts)
    ensures r.None? <==> exists n :: n in roots && Faulty(all, n)
  {
    parts := [];
    var findings, passed := [], true;
    var i := 0;
    while i < |roots|
      invariant i <= |roots| && Faithful(all, roots[..i], findings, passed, parts)
      invariant forall k :: 0 <= k < i ==> !Faulty(all, roots[k])
    {
      var part := ReviewRoot(all, roots[i]);
      if part.None? {
        assert roots[i] in roots;
        return None, [];
      }
      FaithfulExtends(all, roots[..i], findings, passed, parts, roots[i], part.value.0, part.value.1);
      assert roots[..i + 1] == roots[..i] + [roots[i]];
      parts := parts + [part.value.0];
      findings, passed := findings + part.value.0, passed && part.value.1;
      i := i + 1;
    }
    assert roots[..i] == roots;
    r := Some((findings, passed));
  }

  lemma FaithfulExtends(g: Graph, roots: seq<Name>, findings: seq<Finding>, passed: bool, parts: seq<seq<Finding>>,
                        root: Name, part: seq<Finding>, clean: bool)
    requires Faithful(g, roots, findings, passed, parts) && Exact(g, root, part) && (clean <==> part == [])
    ensures Faithful(g, roots + [root], findings + part, passed && clean, parts + [part])
  {
    assert (parts + [part])[..|parts|] == parts;
    assert |findings + part| == |findings| + |part|;
  }

  method ReviewRoot(all: Graph, root: Name) returns (r: Option<(seq<Finding>, bool)>)
    ensures r.Some? ==> Exact(all, root, r.value.0) && (r.value.1 <==> r.value.0 == [])
    ensures r.None? <==> Faulty(all, root)
  {
    var review := new Review(all, root);
    assert PathTo(all, root, root, [root]);
    var ok := review.Visit(root, [root]);
    if !ok { return None; }
    SearchIsExact(all, root, review.seen, review.findings);
    r := Some((review.findings, review.passed));
  }

  method Partition(all: Graph, names: seq<Name>) returns (release: seq<Name>, excluded: seq<Name>)
    requires forall n :: n in names <==> n in all
    ensures forall n :: n in release <==> Released(all, n)
    ensures forall n :: n in excluded <==> n in all && !Released(all, n)
    ensures AsOften(release, names, n => Released(all, n)) && AsOften(excluded, names, n => !Released(all, n))
  {
    release, excluded := [], [];
    for i := 0 to |names|
      invariant AsOften(release, names[..i], n => Released(all, n))
      invariant AsOften(excluded, names[..i], n => !Released(all, n))
      invariant forall n :: n in release <==> n in names[..i] && Released(all, n)
      invariant forall n :: n in excluded <==> n in names[..i] && !Released(all, n)
    {
      assert names[i] in names;
      assert names[..i + 1] == names[..i] + [names[i]];
      if all[names[i]].status == RELEASE {
        release := release + [names[i]];
      } else {
        excluded := excluded + [names[i]];
      }
    }
    assert names[..|names|] == names;
  }

  method FirstUnreleased(all: Graph, requested: seq<Name>) returns (found: bool)
    ensures found <==> exists n :: n in requested && !Released(all, n)
  {
    for i := 0 to |requested|
      invariant forall k :: 0 <= k < i ==> Released(all, requested[k])
    {
      if requested[i] !in all || all[requested[i]].status != RELEASE {
        assert requested[i] in requested && !Released(all, requested[i]);
        return true;
      }
    }
    found := false;
  }
}
