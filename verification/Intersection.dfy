/**
 Intersecting two policies of one workspace: the second is flattened into ceilings of the
 first, one copy of each declaration, every source hoisted to the root.
 */
module Intersection {
  import opened Paths
  import opened Permissions
  import opened Revisions
  import opened PolicyMeaning

  /** The declarations seen so far, the ceilings kept and the sources collected. */
  datatype Retained = Retained(seen: set<Atom>, ceilings: seq<Policy>, sources: seq<Source>)

  function Retain(st: Retained, policy: Policy): Retained
    decreases policy, 1
  {
    var key := AtomOf(policy);
    var kept := if key in st.seen then st.ceilings else st.ceilings + [policy.(ceilings := [])];
    RetainAll(Retained(st.seen + {key}, kept, st.sources + policy.sources), policy.ceilings)
  }

  function RetainAll(st: Retained, policies: seq<Policy>): Retained
    decreases policies, 0
  {
    if policies == [] then st else RetainAll(Retain(st, policies[0]), policies[1..])
  }

  /** First occurrences, in order. */
  function Dedup<T(==)>(xs: seq<T>): seq<T> {
    if xs == [] then []
    else
      var rest := Dedup(xs[..|xs| - 1]);
      if xs[|xs| - 1] in rest then rest else rest + [xs[|xs| - 1]]
  }

  /** `q` adds nothing that `p` does not already state. */
  ghost predicate Covers(p: Policy, q: Policy) {
    RevisionOf(p) == RevisionOf(q) || exists c :: c in p.ceilings && RevisionOf(c) == RevisionOf(q)
  }

  ghost function Merged(p: Policy, q: Policy): Retained {
    Retain(RetainAll(Retained({AtomOf(p)}, [], p.sources), p.ceilings), q)
  }

  ghost function Intersect(p: Policy, q: Policy): Option<Policy> {
    if p.workspace != q.workspace then None
    else if Covers(p, q) then Some(p)
    else Some(p.(ceilings := Merged(p, q).ceilings, sources := Dedup(Merged(p, q).sources)))
  }

  // ----- What retaining keeps

  ghost predicate FlatCeilings(cs: seq<Policy>) { forall c | c in cs :: c.ceilings == [] }

  ghost predicate DistinctAtoms(cs: seq<Policy>) {
    forall i, j :: 0 <= i < j < |cs| ==> AtomOf(cs[i]) != AtomOf(cs[j])
  }

  ghost function AtomsIn(cs: seq<Policy>): set<Atom> { set c | c in cs :: AtomOf(c) }

  /** Ceilings flat, pairwise distinct and free of the root declaration. */
  ghost predicate Normal(p: Policy) {
    FlatCeilings(p.ceilings) && DistinctAtoms(p.ceilings) && AtomOf(p) !in AtomsIn(p.ceilings)
  }

  function SourceSet(sources: seq<Source>): set<Source> { set s | s in sources }

  ghost function AllSources(p: Policy): set<Source> {
    SourceSet(p.sources) + set c, s | c in p.ceilings && s in AllSources(c) :: s
  }

  ghost predicate Coherent(st: Retained, root: Atom) {
    && root in st.seen
    && FlatCeilings(st.ceilings)
    && DistinctAtoms(st.ceilings)
    && AtomsIn(st.ceilings) == st.seen - {root}
    && forall c | c in st.ceilings :: SourceSet(c.sources) <= SourceSet(st.sources)
  }

  lemma KeepOne(st: Retained, policy: Policy, root: Atom)
    requires Coherent(st, root)
    ensures var key := AtomOf(policy);
            var kept := if key in st.seen then st.ceilings else st.ceilings + [policy.(ceilings := [])];
            Coherent(Retained(st.seen + {key}, kept, st.sources + policy.sources), root)
  {
    var key, atom := AtomOf(policy), policy.(ceilings := []);
    assert SourceSet(st.sources + policy.sources) == SourceSet(st.sources) + SourceSet(policy.sources);
    if key !in st.seen {
      var kept := st.ceilings + [atom];
      assert AtomOf(atom) == key;
      assert AtomsIn(kept) == AtomsIn(st.ceilings) + {key};
      forall i, j | 0 <= i < j < |kept| ensures AtomOf(kept[i]) != AtomOf(kept[j]) {
        if j == |kept| - 1 {
          assert kept[i] in st.ceilings;
          assert AtomOf(kept[i]) in AtomsIn(st.ceilings);
        }
      }
    } else {
      assert st.seen + {key} == st.seen;
    }
  }

  lemma {:induction false} RetainKeeps(st: Retained, policy: Policy, root: Atom)
    requires Coherent(st, root)
    ensures Coherent(Retain(st, policy), root)
    ensures Retain(st, policy).seen == st.seen + Atoms(policy)
    ensures SourceSet(Retain(st, policy).sources) == SourceSet(st.sources) + AllSources(policy)
    decreases policy, 1
  {
    var key := AtomOf(policy);
    var kept := if key in st.seen then st.ceilings else st.ceilings + [policy.(ceilings := [])];
    KeepOne(st, policy, root);
    RetainAllKeeps(Retained(st.seen + {key}, kept, st.sources + policy.sources), policy.ceilings, root);
    assert SourceSet(st.sources + policy.sources) == SourceSet(st.sources) + SourceSet(policy.sources);
    assert Atoms(policy) == {key} + CeilingAtoms(policy.ceilings);
    assert AllSources(policy) == SourceSet(policy.sources) + CeilingSources(policy.ceilings);
  }

  ghost function CeilingAtoms(ps: seq<Policy>): set<Atom> { set c, a | c in ps && a in Atoms(c) :: a }

  ghost function CeilingSources(ps: seq<Policy>): set<Source> { set c, s | c in ps && s in AllSources(c) :: s }

  lemma CeilingsSplit(ps: seq<Policy>, k: nat)
    requires k <= |ps|
    ensures CeilingAtoms(ps) == CeilingAtoms(ps[..k]) + CeilingAtoms(ps[k..])
    ensures CeilingSources(ps) == CeilingSources(ps[..k]) + CeilingSources(ps[k..])
  {
    assert ps == ps[..k] + ps[k..];
    assert forall c :: c in ps <==> c in ps[..k] || c in ps[k..];
  }

  lemma CeilingsOfOne(p: Policy)
    ensures CeilingAtoms([p]) == Atoms(p) && CeilingSources([p]) == AllSources(p)
  {
    assert p in [p];
  }

  lemma {:induction false} RetainAllKeeps(st: Retained, ps: seq<Policy>, root: Atom)
    requires Coherent(st, root)
    ensures Coherent(RetainAll(st, ps), root)
    ensures RetainAll(st, ps).seen == st.seen + CeilingAtoms(ps)
    ensures SourceSet(RetainAll(st, ps).sources) == SourceSet(st.sources) + CeilingSources(ps)
    decreases ps, 0
  {
    if ps != [] {
      RetainKeeps(st, ps[0], root);
      RetainAllKeeps(Retain(st, ps[0]), ps[1..], root);
      assert ps[..1] == [ps[0]];
      CeilingsSplit(ps, 1);
      CeilingsOfOne(ps[0]);
    } else {
      assert CeilingAtoms(ps) == {} && CeilingSources(ps) == {};
    }
  }

  lemma {:induction false} DedupKeepsSet<T>(xs: seq<T>)
    ensures forall x :: x in Dedup(xs) <==> x in xs
  {
    if xs != [] {
      var last := xs[|xs| - 1];
      DedupKeepsSet(xs[..|xs| - 1]);
      assert xs == xs[..|xs| - 1] + [last];
    }
  }

  lemma MergedKeeps(p: Policy, q: Policy)
    ensures Coherent(Merged(p, q), AtomOf(p))
    ensures Merged(p, q).seen == Atoms(p) + Atoms(q)
    ensures SourceSet(Merged(p, q).sources) == AllSources(p) + AllSources(q)
  {
    var root := AtomOf(p);
    var start := Retained({root}, [], p.sources);
    assert AtomsIn([]) == {};
    RetainAllKeeps(start, p.ceilings, root);
    RetainKeeps(RetainAll(start, p.ceilings), q, root);
    assert Atoms(p) == {root} + CeilingAtoms(p.ceilings);
    assert AllSources(p) == SourceSet(p.sources) + CeilingSources(p.ceilings);
  }

  lemma {:induction false} ProtectedIsFiles(p: Policy)
    ensures Protected(p) == set s | s in AllSources(p) && s.FileSource? :: s.path
    decreases p
  {
    forall c | c in p.ceilings
      ensures Protected(c) == set s | s in AllSources(c) && s.FileSource? :: s.path
    {
      ProtectedIsFiles(c);
    }
    forall x | x in Protected(p) ensures exists s :: s in AllSources(p) && s.FileSource? && s.path == x {
      if x in SourcePaths(p.sources) {
        assert FileSource(x) in SourceSet(p.sources);
      } else {
        var c :| c in p.ceilings && x in Protected(c);
        var s :| s in AllSources(c) && s.FileSource? && s.path == x;
        assert s in AllSources(p);
      }
    }
    forall s | s in AllSources(p) && s.FileSource? ensures s.path in Protected(p) {
      if s !in SourceSet(p.sources) {
        var c :| c in p.ceilings && s in AllSources(c);
        assert s.path in Protected(c);
      }
    }
  }

  // ----- Intersection is the join of revisions, hence the meet of authorities

  lemma FlatAtoms(cs: seq<Policy>)
    requires FlatCeilings(cs)
    ensures CeilingAtoms(cs) == AtomsIn(cs)
  {
    assert forall c | c in cs :: Atoms(c) == {AtomOf(c)};
  }

  lemma FlatSources(cs: seq<Policy>, all: set<Source>)
    requires FlatCeilings(cs)
    requires forall c | c in cs :: SourceSet(c.sources) <= all
    ensures CeilingSources(cs) <= all
  {
    forall c, s | c in cs && s in AllSources(c) ensures s in all {
      assert c.ceilings == [];
    }
  }

  lemma TreeByCeilings(p: Policy)
    ensures Atoms(p) == {AtomOf(p)} + CeilingAtoms(p.ceilings)
    ensures AllSources(p) == SourceSet(p.sources) + CeilingSources(p.ceilings)
  {
  }

  /** A policy put together from coherent parts is normal and states exactly what was seen. */
  lemma CoherentTree(r: Policy, st: Retained)
    requires Coherent(st, AtomOf(r)) && r.ceilings == st.ceilings && SourceSet(r.sources) == SourceSet(st.sources)
    ensures Normal(r) && Atoms(r) == st.seen && AllSources(r) == SourceSet(st.sources)
  {
    FlatAtoms(r.ceilings);
    FlatSources(r.ceilings, SourceSet(r.sources));
    TreeByCeilings(r);
  }

  /** What retaining both trees gathered, put in place of `p`'s ceilings and sources. */
  lemma RetainedRevision(p: Policy, r: Policy, m: Retained)
    requires Coherent(m, AtomOf(p)) && r == p.(ceilings := m.ceilings, sources := Dedup(m.sources))
    ensures Normal(r) && Atoms(r) == m.seen && AllSources(r) == SourceSet(m.sources) == SourceSet(r.sources)
  {
    DedupKeepsSet(m.sources);
    assert SourceSet(r.sources) == SourceSet(m.sources);
    assert AtomOf(r) == AtomOf(p);
    CoherentTree(r, m);
  }

  lemma MergedRevision(p: Policy, q: Policy, r: Policy)
    requires r == p.(ceilings := Merged(p, q).ceilings, sources := Dedup(Merged(p, q).sources))
    ensures Normal(r)
    ensures Atoms(r) == Atoms(p) + Atoms(q)
    ensures AllSources(r) == AllSources(p) + AllSources(q) == SourceSet(r.sources)
  {
    MergedKeeps(p, q);
    RetainedRevision(p, r, Merged(p, q));
  }

  /** On every branch, early returns included, the result's revision joins both inputs'. */
  lemma IntersectionJoins(p: Policy, q: Policy)
    requires p.workspace == q.workspace
    ensures RevisionOf(Intersect(p, q).value) == Join(RevisionOf(p), RevisionOf(q))
  {
    var r := Intersect(p, q).value;
    if Covers(p, q) {
      CoveredRevision(p, q);
    } else {
      MergedRevision(p, q, r);
      FilesJoin(p, q, r);
    }
  }

  lemma CoveredRevision(p: Policy, q: Policy)
    requires Covers(p, q)
    ensures RevisionOf(p) == Join(RevisionOf(p), RevisionOf(q))
  {
    if RevisionOf(p) != RevisionOf(q) {
      var c :| c in p.ceilings && RevisionOf(c) == RevisionOf(q);
      assert Atoms(c) <= Atoms(p) && Protected(c) <= Protected(p);
    }
    assert Atoms(p) + Atoms(q) == Atoms(p) && Protected(p) + Protected(q) == Protected(p);
  }

  lemma FilesJoin(p: Policy, q: Policy, r: Policy)
    requires AllSources(r) == AllSources(p) + AllSources(q)
    ensures Protected(r) == Protected(p) + Protected(q)
  {
    ProtectedIsFiles(p);
    ProtectedIsFiles(q);
    ProtectedIsFiles(r);
  }

  /** The intersection decides every path, tool, URL, command and approval as the narrower input. */
  lemma IntersectionIsMeet(w: World, p: Policy, q: Policy)
    requires p.workspace == q.workspace
    ensures IsMeet(w, Intersect(p, q).value, p, q)
    ensures var r := Intersect(p, q).value;
            && (forall name :: Stricter(ToolDecision(w, r, name), ToolDecision(w, p, name), ToolDecision(w, q, name)))
            && (forall url :: Stricter(NetworkDecision(r, url), NetworkDecision(p, url), NetworkDecision(q, url)))
            && Stricter(CommandNetwork(r), CommandNetwork(p), CommandNetwork(q))
  {
    var r := Intersect(p, q).value;
    IntersectionJoins(p, q);
    JoinIsMeet(w, r, p, q);
    forall name ensures Stricter(ToolDecision(w, r, name), ToolDecision(w, p, name), ToolDecision(w, q, name)) {
      MaxMeans(ToolDecision(w, p, name), ToolDecision(w, q, name));
    }
    forall url ensures Stricter(NetworkDecision(r, url), NetworkDecision(p, url), NetworkDecision(q, url)) {
      MaxMeans(NetworkDecision(p, url), NetworkDecision(q, url));
    }
    MaxMeans(CommandNetwork(p), CommandNetwork(q));
  }

  /** Denied if either denies, asked if neither denies and either asks, undecided if neither decides. */
  ghost predicate Stricter(r: Level, a: Level, b: Level) {
    && (r == Forbid <==> a == Forbid || b == Forbid)
    && (r == Ask <==> a != Forbid && b != Forbid && (a == Ask || b == Ask))
    && (r == Unset <==> a == Unset && b == Unset)
  }

  /**
   What is left of the first policy: everything but ceilings and sources, and all of it when one of its
   nodes at the top states the second already; otherwise its sources come first, and all are at the root.
   */
  lemma IntersectionKeeps(p: Policy, q: Policy)
    ensures Intersect(p, q) == None <==> p.workspace != q.workspace
    ensures p.workspace == q.workspace ==>
            var r := Intersect(p, q).value;
            && r == p.(ceilings := r.ceilings, sources := r.sources)
            && if RevisionOf(q) == RevisionOf(p) || exists c :: c in p.ceilings && RevisionOf(q) == RevisionOf(c)
               then r == p
               else Dedup(p.sources) <= r.sources && SourceSet(r.sources) == AllSources(p) + AllSources(q)
  {
    if p.workspace == q.workspace && !Covers(p, q) {
      MergedSources(p, q);
    }
  }

  lemma MergedSources(p: Policy, q: Policy)
    ensures Dedup(p.sources) <= Dedup(Merged(p, q).sources)
    ensures SourceSet(Dedup(Merged(p, q).sources)) == AllSources(p) + AllSources(q)
  {
    MergedKeeps(p, q);
    MergedExtends(p, q);
    DedupKeepsSet(Merged(p, q).sources);
    DedupOfLonger(p.sources, Merged(p, q).sources);
  }

  lemma DedupOfLonger(xs: seq<Source>, all: seq<Source>)
    requires xs <= all
    ensures Dedup(xs) <= Dedup(all)
  {
    var more := all[|xs|..];
    assert all == xs + more;
    DedupStarts(xs, more);
  }

  lemma {:induction false} DedupStarts<T>(xs: seq<T>, ys: seq<T>)
    ensures Dedup(xs) <= Dedup(xs + ys)
  {
    if ys == [] {
      assert xs + ys == xs;
    } else {
      assert (xs + ys)[..|xs + ys| - 1] == xs + ys[..|ys| - 1];
      DedupStarts(xs, ys[..|ys| - 1]);
    }
  }

  // ----- Folding

  lemma {:induction false} DistinctSize<T>(xs: seq<T>)
    requires forall i, j :: 0 <= i < j < |xs| ==> xs[i] != xs[j]
    ensures |set x | x in xs| == |xs|
  {
    if xs != [] {
      var init, last := xs[..|xs| - 1], xs[|xs| - 1];
      DistinctSize(init);
      assert xs == init + [last];
      assert (set x | x in xs) == (set x | x in init) + {last};
    }
  }

  lemma DistinctCount(cs: seq<Policy>)
    requires DistinctAtoms(cs)
    ensures |AtomsIn(cs)| == |cs|
  {
    var atoms := seq(|cs|, i requires 0 <= i < |cs| => AtomOf(cs[i]));
    DistinctSize(atoms);
    assert (set a | a in atoms) == AtomsIn(cs) by {
      forall c | c in cs ensures AtomOf(c) in atoms {
        var i :| 0 <= i < |cs| && cs[i] == c;
        assert atoms[i] == AtomOf(c);
      }
    }
  }

  lemma NormalCount(p: Policy)
    requires Normal(p)
    ensures |p.ceilings| + 1 == |Atoms(p)|
  {
    FlatAtoms(p.ceilings);
    DistinctCount(p.ceilings);
    assert Atoms(p) == {AtomOf(p)} + AtomsIn(p.ceilings);
  }

  /** Flatness, distinctness and freedom from the root declaration survive any intersection. */
  lemma IntersectionNormal(p: Policy, q: Policy)
    requires p.workspace == q.workspace
    ensures Normal(p) || !Covers(p, q) ==> Normal(Intersect(p, q).value)
  {
    if !Covers(p, q) {
      MergedRevision(p, q, Intersect(p, q).value);
    }
  }

  ghost function Fold(p: Policy, qs: seq<Policy>): Policy
    requires forall q | q in qs :: q.workspace == p.workspace
    ensures Fold(p, qs).workspace == p.workspace
  {
    if qs == [] then p else Intersect(Fold(p, qs[..|qs| - 1]), qs[|qs| - 1]).value
  }

  lemma {:induction false} FoldNormal(p: Policy, qs: seq<Policy>)
    requires Normal(p)
    requires forall q | q in qs :: q.workspace == p.workspace
    ensures Normal(Fold(p, qs))
  {
    if qs != [] {
      FoldNormal(p, qs[..|qs| - 1]);
      IntersectionNormal(Fold(p, qs[..|qs| - 1]), qs[|qs| - 1]);
    }
  }

  /** Folding states exactly the declarations of the start and of every policy folded in. */
  lemma {:induction false} FoldAtoms(p: Policy, qs: seq<Policy>)
    requires forall q | q in qs :: q.workspace == p.workspace
    ensures Atoms(Fold(p, qs)) == Atoms(p) + CeilingAtoms(qs)
  {
    if qs == [] {
      assert CeilingAtoms(qs) == {};
    } else {
      var init, last := qs[..|qs| - 1], qs[|qs| - 1];
      FoldAtoms(p, init);
      IntersectionJoins(Fold(p, init), last);
      assert qs[|qs| - 1..] == [last];
      CeilingsSplit(qs, |qs| - 1);
      CeilingsOfOne(last);
    }
  }

  /** A fold stays normal, with one ceiling for each distinct declaration seen besides the root. */
  lemma FoldStaysNormal(p: Policy, qs: seq<Policy>)
    requires Normal(p)
    requires forall q | q in qs :: q.workspace == p.workspace
    ensures Normal(Fold(p, qs))
    ensures Atoms(Fold(p, qs)) == Atoms(p) + CeilingAtoms(qs)
    ensures |Fold(p, qs).ceilings| + 1 == |Atoms(p) + CeilingAtoms(qs)|
  {
    FoldNormal(p, qs);
    FoldAtoms(p, qs);
    NormalCount(Fold(p, qs));
  }

  // ----- Repetition

  /** Retaining policies whose declarations were all seen keeps the ceilings as they are. */
  lemma {:induction false} RetainSeen(st: Retained, policy: Policy)
    requires Atoms(policy) <= st.seen
    ensures Retain(st, policy).ceilings == st.ceilings && Retain(st, policy).seen == st.seen
    decreases policy, 1
  {
    assert Atoms(policy) == {AtomOf(policy)} + CeilingAtoms(policy.ceilings);
    assert st.seen + {AtomOf(policy)} == st.seen;
    RetainAllSeen(Retained(st.seen, st.ceilings, st.sources + policy.sources), policy.ceilings);
  }

  lemma {:induction false} RetainAllSeen(st: Retained, ps: seq<Policy>)
    requires CeilingAtoms(ps) <= st.seen
    ensures RetainAll(st, ps).ceilings == st.ceilings && RetainAll(st, ps).seen == st.seen
    decreases ps, 0
  {
    if ps != [] {
      assert forall c | c in ps[1..] :: c in ps;
      assert CeilingAtoms(ps[1..]) <= CeilingAtoms(ps);
      assert Atoms(ps[0]) <= CeilingAtoms(ps);
      RetainSeen(st, ps[0]);
      RetainAllSeen(Retain(st, ps[0]), ps[1..]);
    }
  }

  lemma RetainFresh(st: Retained, c: Policy)
    requires c.ceilings == [] && AtomOf(c) !in st.seen
    ensures Retain(st, c) == Retained(st.seen + {AtomOf(c)}, st.ceilings + [c], st.sources + c.sources)
  {
    assert c.(ceilings := []) == c;
    var next := Retained(st.seen + {AtomOf(c)}, st.ceilings + [c], st.sources + c.sources);
    assert RetainAll(next, []) == next;
  }

  lemma DistinctTail(cs: seq<Policy>)
    requires cs != [] && DistinctAtoms(cs)
    ensures DistinctAtoms(cs[1..]) && AtomOf(cs[0]) !in AtomsIn(cs[1..])
    ensures AtomsIn(cs) == {AtomOf(cs[0])} + AtomsIn(cs[1..])
  {
    var rest := cs[1..];
    assert forall i | 0 <= i < |rest| :: rest[i] == cs[i + 1];
    forall c | c in rest ensures AtomOf(c) != AtomOf(cs[0]) {
      var i :| 0 <= i < |rest| && rest[i] == c;
    }
    assert cs == [cs[0]] + rest;
  }

  /** Retaining the ceilings of a normal policy rebuilds them. */
  lemma {:induction false} RetainNormal(st: Retained, cs: seq<Policy>)
    requires FlatCeilings(cs) && DistinctAtoms(cs) && AtomsIn(cs) !! st.seen
    ensures RetainAll(st, cs).ceilings == st.ceilings + cs
    ensures RetainAll(st, cs).seen == st.seen + AtomsIn(cs)
    decreases cs
  {
    if cs == [] {
      assert AtomsIn(cs) == {} && st.ceilings + [] == st.ceilings;
    } else {
      var next, rest := Retain(st, cs[0]), cs[1..];
      RetainNormalStep(st, cs);
      RetainNormal(next, rest);
      AppendHead(st.ceilings, cs);
    }
  }

  lemma AppendHead<T>(xs: seq<T>, ys: seq<T>)
    requires ys != []
    ensures xs + [ys[0]] + ys[1..] == xs + ys
  {
  }

  lemma RetainNormalStep(st: Retained, cs: seq<Policy>)
    requires cs != [] && FlatCeilings(cs) && DistinctAtoms(cs) && AtomsIn(cs) !! st.seen
    ensures RetainAll(st, cs) == RetainAll(Retain(st, cs[0]), cs[1..])
    ensures Retain(st, cs[0]).ceilings == st.ceilings + [cs[0]]
    ensures FlatCeilings(cs[1..]) && DistinctAtoms(cs[1..]) && AtomsIn(cs[1..]) !! Retain(st, cs[0]).seen
    ensures Retain(st, cs[0]).seen + AtomsIn(cs[1..]) == st.seen + AtomsIn(cs)
  {
    DistinctTail(cs);
    RetainFresh(st, cs[0]);
  }

  /** A policy whose declarations a normal policy already holds adds no ceiling. */
  lemma IntersectKnown(p: Policy, q: Policy)
    requires p.workspace == q.workspace && Normal(p) && Atoms(q) <= Atoms(p)
    ensures Intersect(p, q).value.ceilings == p.ceilings
  {
    var st := RetainAll(Retained({AtomOf(p)}, [], p.sources), p.ceilings);
    RetainNormal(Retained({AtomOf(p)}, [], p.sources), p.ceilings);
    FlatAtoms(p.ceilings);
    assert Atoms(p) == {AtomOf(p)} + AtomsIn(p.ceilings);
    assert [] + p.ceilings == p.ceilings;
    RetainSeen(st, q);
  }

  /** Repeating any policy already folded in changes no ceiling. */
  lemma FoldRepeats(p: Policy, qs: seq<Policy>, q: Policy)
    requires Normal(p) && q in qs
    requires forall x | x in qs :: x.workspace == p.workspace
    ensures Intersect(Fold(p, qs), q).value.ceilings == Fold(p, qs).ceilings
  {
    FoldStaysNormal(p, qs);
    assert Atoms(q) <= CeilingAtoms(qs);
    IntersectKnown(Fold(p, qs), q);
  }

  lemma {:induction false} DedupAppendKnown<T>(xs: seq<T>, ys: seq<T>)
    requires forall y | y in ys :: y in xs
    ensures Dedup(xs + ys) == Dedup(xs)
  {
    if ys == [] {
      assert xs + ys == xs;
    } else {
      var init, last := ys[..|ys| - 1], ys[|ys| - 1];
      assert (xs + ys)[..|xs + ys| - 1] == xs + init;
      DedupAppendKnown(xs, init);
      DedupKeepsSet(xs);
      assert last in ys;
    }
  }

  lemma {:induction false} DedupTwice<T>(xs: seq<T>)
    ensures Dedup(Dedup(xs)) == Dedup(xs)
  {
    if xs != [] {
      var rest, last := Dedup(xs[..|xs| - 1]), xs[|xs| - 1];
      DedupTwice(xs[..|xs| - 1]);
      if last !in rest {
        assert (rest + [last])[..|rest + [last]| - 1] == rest;
      }
    }
  }

  /** Sources only grow at the end. */
  lemma {:induction false} RetainExtends(st: Retained, policy: Policy)
    ensures st.sources <= Retain(st, policy).sources
    decreases policy, 1
  {
    var key := AtomOf(policy);
    var kept := if key in st.seen then st.ceilings else st.ceilings + [policy.(ceilings := [])];
    RetainAllExtends(Retained(st.seen + {key}, kept, st.sources + policy.sources), policy.ceilings);
  }

  lemma {:induction false} RetainAllExtends(st: Retained, ps: seq<Policy>)
    ensures st.sources <= RetainAll(st, ps).sources
    decreases ps, 0
  {
    if ps != [] {
      RetainExtends(st, ps[0]);
      RetainAllExtends(Retain(st, ps[0]), ps[1..]);
    }
  }

  lemma MergeAgain(r: Policy, q: Policy)
    requires Atoms(q) <= Atoms(r) && AllSources(q) <= AllSources(r) == SourceSet(r.sources)
    requires Dedup(r.sources) == r.sources
    ensures Dedup(Merged(r, q).sources) == r.sources
  {
    MergedKeeps(r, q);
    MergedExtends(r, q);
    KnownTail(r.sources, Merged(r, q).sources);
  }

  lemma MergedExtends(r: Policy, q: Policy)
    ensures r.sources <= Merged(r, q).sources
  {
    var start := Retained({AtomOf(r)}, [], r.sources);
    RetainAllExtends(start, r.ceilings);
    RetainExtends(RetainAll(start, r.ceilings), q);
  }

  lemma KnownTail(some: seq<Source>, all: seq<Source>)
    requires some <= all && SourceSet(all) == SourceSet(some)
    ensures Dedup(all) == Dedup(some)
  {
    var extra := all[|some|..];
    assert all == some + extra;
    forall y | y in extra ensures y in some {
      assert y in SourceSet(all);
    }
    DedupAppendKnown(some, extra);
  }

  /** Intersecting twice with one policy is intersecting once, to the last field. */
  lemma IntersectionIdempotent(p: Policy, q: Policy)
    requires p.workspace == q.workspace
    ensures Intersect(Intersect(p, q).value, q) == Intersect(p, q)
  {
    var r := Intersect(p, q).value;
    if !Covers(p, q) && !Covers(r, q) {
      MergedRevision(p, q, r);
      IntersectKnown(r, q);
      DedupTwice(Merged(p, q).sources);
      MergeAgain(r, q);
    }
  }
}
