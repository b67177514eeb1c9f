/**
 Cycle detection among derived tags: a depth-first walk with a set of tags being visited. It is
 proved to find a cycle exactly when some walk along references repeats a tag, and to report one.
 */
module Cycles {
  import opened Common

  type Name = nat

  /** A derived tag and the names it refers to, qualified references first. */
  datatype Tag = Tag(name: Name, refs: seq<Name>)

  type Graph = map<Name, seq<Name>>

  /** References by name; of tags that share a name the last counts. */
  function ByName(tags: seq<Tag>): Graph {
    if tags == [] then map[] else ByName(tags[..|tags| - 1])[tags[|tags| - 1].name := tags[|tags| - 1].refs]
  }

  /** `w` follows references to known derived tags, starting from a tag that refers to `refs`. */
  ghost predicate Walk(g: Graph, refs: seq<Name>, w: seq<Name>)
    decreases |w|
  {
    w == [] || (w[0] in refs && w[0] in g && Walk(g, g[w[0]], w[1..]))
  }

  ghost predicate Simple(s: seq<Name>) {
    forall i, j :: 0 <= i < j < |s| ==> s[i] != s[j]
  }

  lemma {:induction false} WalkSnoc(g: Graph, refs: seq<Name>, w: seq<Name>, n: Name)
    requires Walk(g, refs, w) && n in g
    requires n in if w == [] then refs else if w[|w| - 1] in g then g[w[|w| - 1]] else []
    ensures Walk(g, refs, w + [n])
    decreases |w|
  {
    if w == [] {
      assert [n][1..] == [];
    } else {
      WalkSnoc(g, g[w[0]], w[1..], n);
      assert (w + [n])[1..] == w[1..] + [n];
    }
  }

  /** `path` then `name` is a walk from `root`, and `refs` is what the tag at its end refers to. */
  ghost predicate On(g: Graph, root: Tag, path: seq<Name>, name: Name, refs: seq<Name>) {
    && name in g
    && if path == [] then name == root.name && refs == root.refs
       else path[0] == root.name && Walk(g, root.refs, path[1..] + [name]) && refs == g[name]
  }

  lemma {:induction false} Onward(g: Graph, root: Tag, path: seq<Name>, name: Name, refs: seq<Name>, next: Name)
    requires On(g, root, path, name, refs) && next in refs && next in g
    ensures On(g, root, path + [name], next, g[next])
  {
    if path == [] {
      assert (path + [name])[1..] == [];
      WalkSnoc(g, root.refs, [], next);
    } else {
      WalkSnoc(g, root.refs, path[1..] + [name], next);
      assert (path + [name])[1..] == path[1..] + [name];
    }
  }

  /** No walk on from here repeats a tag. */
  ghost predicate CleanFrom(g: Graph, refs: seq<Name>, path: seq<Name>) {
    forall w :: Walk(g, refs, w) ==> Simple(path + w)
  }

  /** The same for the walks that begin with one of the first `k` references. */
  ghost predicate CleanUpTo(g: Graph, refs: seq<Name>, path: seq<Name>, k: nat)
    requires k <= |refs|
  {
    forall w :: Walk(g, refs, w) && w != [] && w[0] in refs[..k] ==> Simple(path + w)
  }

  lemma {:induction false} CleanMore(g: Graph, refs: seq<Name>, path: seq<Name>, k: nat)
    requires k < |refs| && CleanUpTo(g, refs, path, k)
    requires refs[k] in g ==> CleanFrom(g, g[refs[k]], path + [refs[k]])
    ensures CleanUpTo(g, refs, path, k + 1)
  {
    forall w | Walk(g, refs, w) && w != [] && w[0] in refs[..k + 1] ensures Simple(path + w) {
      if w[0] !in refs[..k] {
        assert w[0] == refs[k];
        assert Walk(g, g[refs[k]], w[1..]);
        assert path + [refs[k]] + w[1..] == path + w;
      }
    }
  }

  lemma {:induction false} CleanAll(g: Graph, refs: seq<Name>, path: seq<Name>)
    requires CleanUpTo(g, refs, path, |refs|) && Simple(path)
    ensures CleanFrom(g, refs, path)
  {
  }

  /** A walk from `root` whose last step comes back to a tag it has been at. */
  ghost predicate Closes(g: Graph, root: Tag, full: seq<Name>) {
    full != [] && full[0] == root.name && Walk(g, root.refs, full[1..]) && full[|full| - 1] in full[..|full| - 1]
  }

  lemma {:induction false} BackAtPath(g: Graph, root: Tag, path: seq<Name>, name: Name, refs: seq<Name>)
    requires On(g, root, path, name, refs) && name in path
    ensures Closes(g, root, path + [name])
  {
    assert (path + [name])[1..] == path[1..] + [name];
    assert (path + [name])[..|path|] == path;
  }

  class Detector {
    const byName: Graph
    var visiting: set<Name>

    constructor (tags: seq<Tag>)
      ensures byName == ByName(tags) && visiting == {}
    {
      byName, visiting := ByName(tags), {};
    }

    /**
     Visits a tag with `path` behind it. Nothing is found exactly when no walk on from here repeats
     a tag; otherwise the walk found is real and ends where it closes. The visiting set is left as it was.
     */
    method Visit(ghost root: Tag, name: Name, refs: seq<Name>, path: seq<Name>) returns (full: Option<seq<Name>>)
      requires On(byName, root, path, name, refs) && Simple(path)
      requires forall n :: n in visiting <==> n in path
      modifies this
      ensures visiting == old(visiting)
      ensures full.None? ==> name !in path && CleanFrom(byName, refs, path + [name])
      ensures full.Some? ==> Closes(byName, root, full.value)
      decreases byName.Keys - visiting
    {
      if name in visiting {
        BackAtPath(byName, root, path, name, refs);
        return Some(path + [name]);
      }
      ghost var before := visiting;
      visiting := visiting + {name};
      var here := path + [name];
      assert name in byName.Keys - before && name !in byName.Keys - visiting;
      assert byName.Keys - visiting < byName.Keys - before;
      for k := 0 to |refs|
        invariant visiting == before + {name}
        invariant CleanUpTo(byName, refs, here, k)
      {
        var next := refs[k];
        if next in byName {
          Onward(byName, root, path, name, refs, next);
          full := Visit(root, next, byName[next], here);
          if full.Some? {
            visiting := visiting - {name};
            return;
          }
        }
        CleanMore(byName, refs, here, k);
      }
      CleanAll(byName, refs, here);
      visiting := visiting - {name};
      full := None;
    }
  }

  // ---------------------------------------------------------------------------
  // Cycles of the reference graph
  // ---------------------------------------------------------------------------

  /** A cycle: one or more references that lead from a tag back to itself. */
  ghost predicate IsCycle(g: Graph, c: seq<Name>) {
    |c| >= 2 && c[0] == c[|c| - 1] && c[0] in g && Walk(g, g[c[0]], c[1..])
  }

  ghost predicate Acyclic(g: Graph) {
    forall c :: !IsCycle(g, c)
  }

  ghost predicate UniqueNames(tags: seq<Tag>) {
    forall i, j :: 0 <= i < j < |tags| ==> tags[i].name != tags[j].name
  }

  lemma {:induction false} WalkPrefix(g: Graph, refs: seq<Name>, w: seq<Name>, n: nat)
    requires Walk(g, refs, w) && n <= |w|
    ensures Walk(g, refs, w[..n])
    decreases |w|
  {
    if n > 0 {
      WalkPrefix(g, g[w[0]], w[1..], n - 1);
      assert w[..n][1..] == w[1..][..n - 1];
    }
  }

  lemma {:induction false} WalkSuffix(g: Graph, refs: seq<Name>, w: seq<Name>, n: nat)
    requires Walk(g, refs, w) && n < |w|
    ensures w[n] in g && Walk(g, g[w[n]], w[n + 1..])
    decreases |w|
  {
    if n > 0 {
      WalkSuffix(g, g[w[0]], w[1..], n - 1);
      assert w[1..][n..] == w[n + 1..];
    }
  }

  /** With unique names the tag of a name is the one that counts, and every known name has its tag. */
  lemma {:induction false} NamesResolve(tags: seq<Tag>, i: nat)
    requires UniqueNames(tags) && i < |tags|
    ensures tags[i].name in ByName(tags) && ByName(tags)[tags[i].name] == tags[i].refs
  {
    if i < |tags| - 1 {
      NamesResolve(tags[..|tags| - 1], i);
    }
  }

  lemma {:induction false} NameHasTag(tags: seq<Tag>, n: Name) returns (i: nat)
    requires n in ByName(tags)
    ensures i < |tags| && tags[i].name == n
  {
    if tags[|tags| - 1].name == n {
      i := |tags| - 1;
    } else {
      i := NameHasTag(tags[..|tags| - 1], n);
    }
  }

  lemma {:induction false} NameKnown(tags: seq<Tag>, i: nat)
    requires i < |tags|
    ensures tags[i].name in ByName(tags)
  {
    if i < |tags| - 1 {
      NameKnown(tags[..|tags| - 1], i);
    }
  }

  /** The stretch of a walk between two visits to the same tag is a cycle. */
  lemma {:induction false} RepeatIsCycle(g: Graph, name: Name, w: seq<Name>, a: nat, b: nat)
    requires name in g && Walk(g, g[name], w) && a < b <= |w| && ([name] + w)[a] == ([name] + w)[b]
    ensures IsCycle(g, ([name] + w)[a..b + 1])
  {
    var full := [name] + w;
    var c := full[a..b + 1];
    if a == 0 {
      WalkPrefix(g, g[name], w, b);
      assert c[1..] == w[..b];
    } else {
      WalkSuffix(g, g[name], w, a - 1);
      WalkPrefix(g, g[w[a - 1]], w[a..], b - a);
      assert c[1..] == w[a..][..b - a];
    }
  }

  /** No walk from any tag repeats. */
  ghost predicate AllClean(tags: seq<Tag>) {
    forall i :: 0 <= i < |tags| ==> CleanFrom(ByName(tags), tags[i].refs, [tags[i].name])
  }

  lemma {:induction false} CycleIsNotClean(tags: seq<Tag>, c: seq<Name>)
    requires UniqueNames(tags) && IsCycle(ByName(tags), c)
    ensures !AllClean(tags)
  {
    var i := NameHasTag(tags, c[0]);
    NamesResolve(tags, i);
    assert [c[0]] + c[1..] == c;
    assert !Simple([tags[i].name] + c[1..]);
  }

  lemma {:induction false} AcyclicMeansClean(tags: seq<Tag>)
    requires UniqueNames(tags) && Acyclic(ByName(tags))
    ensures AllClean(tags)
  {
    var g := ByName(tags);
    forall i, w | 0 <= i < |tags| && Walk(g, tags[i].refs, w) ensures Simple([tags[i].name] + w) {
      NamesResolve(tags, i);
      var full := [tags[i].name] + w;
      forall a, b | 0 <= a < b < |full| ensures full[a] != full[b] {
        if full[a] == full[b] {
          RepeatIsCycle(g, tags[i].name, w, a, b);
        }
      }
    }
  }

  /** With unique names, no walk from any tag repeats exactly when the reference graph has no cycle. */
  lemma {:induction false} CleanIffAcyclic(tags: seq<Tag>)
    requires UniqueNames(tags)
    ensures AllClean(tags) <==> Acyclic(ByName(tags))
  {
    if Acyclic(ByName(tags)) {
      AcyclicMeansClean(tags);
    } else {
      var c :| IsCycle(ByName(tags), c);
      CycleIsNotClean(tags, c);
    }
  }

  /** Cuts the cycle out of a walk that has just closed. */
  method Splice(full: seq<Name>) returns (c: seq<Name>, start: nat)
    requires |full| > 0 && full[|full| - 1] in full[..|full| - 1]
    ensures start < |full| - 1 && c == full[start..] && full[start] == full[|full| - 1]
  {
    start := 0;
    while full[start] != full[|full| - 1]
      invariant start < |full| - 1
      invariant exists i :: start <= i < |full| - 1 && full[i] == full[|full| - 1]
      decreases |full| - start
    {
      start := start + 1;
    }
    c := full[start..];
  }

  /**
   Reports the first cycle found. It finds none exactly when no walk from any tag repeats, which
   with unique names means exactly when the reference graph is acyclic; and then what it reports
   is a cycle of that graph.
   */
  method DetectDerivedCycles(tags: seq<Tag>) returns (cycle: Option<seq<Name>>)
    ensures cycle.None? <==> AllClean(tags)
    ensures UniqueNames(tags) ==> (cycle.None? <==> Acyclic(ByName(tags)))
    ensures UniqueNames(tags) && cycle.Some? ==> IsCycle(ByName(tags), cycle.value)
  {
    var detector := new Detector(tags);
    for i := 0 to |tags|
      invariant detector.visiting == {} && fresh(detector)
      invariant forall j :: 0 <= j < i ==> CleanFrom(ByName(tags), tags[j].refs, [tags[j].name])
    {
      NameKnown(tags, i);
      var full := detector.Visit(tags[i], tags[i].name, tags[i].refs, []);
      assert [] + [tags[i].name] == [tags[i].name];
      if full.Some? {
        var c, start := Splice(full.value);
        FoundIsNotClean(ByName(tags), tags[i], full.value);
        if UniqueNames(tags) {
          FoundIsCycle(tags, i, full.value, start);
        }
        return Some(c);
      }
    }
    if UniqueNames(tags) {
      CleanIffAcyclic(tags);
    }
    cycle := None;
  }

  lemma {:induction false} FoundIsNotClean(g: Graph, root: Tag, full: seq<Name>)
    requires Closes(g, root, full)
    ensures !CleanFrom(g, root.refs, [root.name])
  {
    var i :| 0 <= i < |full| - 1 && full[i] == full[|full| - 1];
    assert [root.name] + full[1..] == full;
    assert !Simple([root.name] + full[1..]);
  }

  lemma {:induction false} FoundIsCycle(tags: seq<Tag>, i: nat, full: seq<Name>, start: nat)
    requires i < |tags| && UniqueNames(tags) && Closes(ByName(tags), tags[i], full)
    requires start < |full| - 1 && full[start] == full[|full| - 1]
    ensures IsCycle(ByName(tags), full[start..])
  {
    NamesResolve(tags, i);
    ClosingIsCycle(ByName(tags), full[0], full, full[1..], start);
  }

  lemma {:induction false} ClosingIsCycle(g: Graph, name: Name, full: seq<Name>, w: seq<Name>, start: nat)
    requires name in g && Walk(g, g[name], w) && full == [name] + w
    requires start < |full| - 1 && full[start] == full[|full| - 1]
    ensures IsCycle(g, full[start..])
  {
    RepeatIsCycle(g, name, w, start, |w|);
    assert full[start..|w| + 1] == full[start..];
  }
}
