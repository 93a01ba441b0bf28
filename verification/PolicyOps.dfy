/**
 The loops and accumulators of the policy module, against the functions of
 Permissions, Revisions and Intersection.
 */
module PolicyOps {
  import opened Paths
  import opened Permissions
  import opened Revisions
  import opened Intersection
  import opened Selection
  import opened PolicyMeaning

  /** Why an access is refused, or that it is granted. */
  datatype Reason =
    | Authorized
    | Unresolvable
    | ReadOnlyProfile
    | PrivateDirectory
    | PolicySource
    | ProtectedMetadata
    | Outside(candidate: Path)
    | DeniedBy(rule: PathRule)
    | Ceiling(reason: Reason)

  /** The candidate is the path itself or its real target. */
  predicate Examined(w: World, path: Path, c: Path) { c == path || w.resolve(path) == Some(c) }

  /** What a refusal must point at; `Ceiling` defers to the ceiling's own reason. */
  ghost predicate Explains(w: World, p: Policy, path: Path, write: bool, reason: Reason) {
    match reason
    case Authorized => Allows(w, p, path, write)
    case Unresolvable => w.resolve(path).None?
    case ReadOnlyProfile => write && p.profile == ReadOnly
    case PrivateDirectory => exists c, x :: Examined(w, path, c) && x in p.privatePaths && w.under(c, x)
    case PolicySource =>
      write && exists c, f :: Examined(w, path, c) && FileSource(f) in p.sources && (w.under(c, f) || w.same(c, f))
    case ProtectedMetadata => write && exists c :: Examined(w, path, c) && !NoMetadata(c)
    case Outside(c) => Examined(w, path, c) && forall r | r in p.filesystem :: !w.under(c, r.path)
    case DeniedBy(r) =>
      exists c :: Examined(w, path, c) && Selects(w, RuleSet(p.filesystem), c, r) && !Permits(r.access, write)
    case Ceiling(inner) => exists c :: c in p.ceilings && !inner.Authorized? && Explains(w, c, path, write, inner)
  }

  /** `max(matching, key=...)`: the first rule that no matching rule outranks strictly. */
  method SelectRule(w: World, rules: seq<PathRule>, c: Path) returns (best: Option<PathRule>)
    ensures best.None? ==> forall r | r in rules :: !w.under(c, r.path)
    ensures best.Some? ==> Selects(w, RuleSet(rules), c, best.value)
  {
    best := None;
    for i := 0 to |rules|
      invariant best.None? ==> forall k | 0 <= k < i :: !w.under(c, rules[k].path)
      invariant best.Some? ==> best.value in rules && w.under(c, best.value.path)
      invariant best.Some? ==> forall k | 0 <= k < i && w.under(c, rules[k].path) :: Outranks(best.value, rules[k])
    {
      if w.under(c, rules[i].path) && (best.None? || !Outranks(best.value, rules[i])) {
        best := Some(rules[i]);
      }
    }
  }

  /** One candidate at one node. */
  method CandidateReason(w: World, p: Policy, path: Path, c: Path, write: bool) returns (reason: Reason)
    requires Examined(w, path, c) && (write ==> p.profile != ReadOnly)
    ensures !reason.Ceiling?
    ensures reason.Authorized? <==> Admits(w, p, c, write)
    ensures reason.Authorized? <==>
            CandidateAllowed(w, RuleSet(p.filesystem), PathSet(p.privatePaths), c, write)
            && (write ==> AvoidsSources(w, SourcePaths(p.sources), c))
    ensures !reason.Authorized? ==> Explains(w, p, path, write, reason)
  {
    CandidateMeans(w, p, c, write);
    for i := 0 to |p.privatePaths|
      invariant forall k | 0 <= k < i :: !w.under(c, p.privatePaths[k])
    {
      if w.under(c, p.privatePaths[i]) {
        assert p.privatePaths[i] in PathSet(p.privatePaths);
        return PrivateDirectory;
      }
    }
    if write {
      for i := 0 to |p.sources|
        invariant forall k | 0 <= k < i && p.sources[k].FileSource? ::
                    !w.under(c, p.sources[k].path) && !w.same(c, p.sources[k].path)
      {
        var s := p.sources[i];
        if s.FileSource? && (w.under(c, s.path) || w.same(c, s.path)) {
          assert s in p.sources && s == FileSource(s.path) && s.path in SourcePaths(p.sources);
          return PolicySource;
        }
      }
      MetadataMeans(c);
      if HasProtected(c) {
        return ProtectedMetadata;
      }
    }
    var best := SelectRule(w, p.filesystem, c);
    if best.None? {
      return Outside(c);
    }
    SelectionDecides(w, RuleSet(p.filesystem), c, best.value, write);
    reason := if Permits(best.value.access, write) then Authorized else DeniedBy(best.value);
  }

  /** A path is authorized exactly when the whole tree allows it, and every refusal is explained. */
  method PathReason(w: World, p: Policy, path: Path, write: bool) returns (reason: Reason)
    ensures reason.Authorized? <==> Allows(w, p, path, write)
    ensures reason.Authorized? <==> Permitted(w, p, path, write)
    ensures Explains(w, p, path, write, reason)
    decreases p, 1
  {
    PermittedMeans(w, p, path, write);
    reason := NodeReason(w, p, path, write);
    if reason.Authorized? {
      reason := CeilingReason(w, p, path, write);
    }
  }

  /** The first ceiling that refuses, with its own reason. */
  method CeilingReason(w: World, p: Policy, path: Path, write: bool) returns (reason: Reason)
    requires NodeAllows(w, p, path, write)
    ensures reason.Authorized? <==> Allows(w, p, path, write)
    ensures Explains(w, p, path, write, reason)
    decreases p, 0
  {
    for i := 0 to |p.ceilings|
      invariant forall k | 0 <= k < i :: Allows(w, p.ceilings[k], path, write)
    {
      var inner := PathReason(w, p.ceilings[i], path, write);
      if !inner.Authorized? {
        CeilingExplains(w, p, path, write, p.ceilings[i], inner);
        return Ceiling(inner);
      }
    }
    reason := Authorized;
  }

  lemma CeilingExplains(w: World, p: Policy, path: Path, write: bool, c: Policy, inner: Reason)
    requires c in p.ceilings && !inner.Authorized? && Explains(w, c, path, write, inner)
    requires !Allows(w, c, path, write)
    ensures Explains(w, p, path, write, Ceiling(inner)) && !Allows(w, p, path, write)
  {
  }

  /** One node, its ceilings aside: the path as written, then its real target if that is another. */
  method NodeReason(w: World, p: Policy, path: Path, write: bool) returns (reason: Reason)
    ensures reason.Authorized? <==> NodeAllows(w, p, path, write)
    ensures !reason.Ceiling? && (!reason.Authorized? ==> Explains(w, p, path, write, reason))
  {
    NodeMeans(w, p, path, write);
    var resolved := w.resolve(path);
    if resolved.None? {
      return Unresolvable;
    }
    if write && p.profile == ReadOnly {
      return ReadOnlyProfile;
    }
    reason := CandidateReason(w, p, path, path, write);
    if reason.Authorized? && resolved.value != path {
      reason := CandidateReason(w, p, path, resolved.value, write);
    }
  }

  /** The sets a revision digests, gathered by walking the tree. */
  class Collector {
    var atoms: set<Atom>
    var sources: set<Path>

    constructor ()
      ensures atoms == {} && sources == {}
    {
      atoms, sources := {}, {};
    }

    method Collect(policy: Policy)
      modifies this
      ensures atoms == old(atoms) + Atoms(policy)
      ensures sources == old(sources) + Protected(policy)
      decreases policy, 1
    {
      atoms := atoms + {AtomOf(policy)};
      sources := sources + set s | s in policy.sources && s.FileSource? :: s.path;
      CollectEach(policy.ceilings);
      TreeByCeilings(policy);
    }

    method CollectEach(policies: seq<Policy>)
      modifies this
      ensures atoms == old(atoms) + CeilingAtoms(policies)
      ensures sources == old(sources) + CeilingProtected(policies)
      decreases policies, 0
    {
      for i := 0 to |policies|
        invariant atoms == old(atoms) + CeilingAtoms(policies[..i])
        invariant sources == old(sources) + CeilingProtected(policies[..i])
      {
        Collect(policies[i]);
        GrowCeilings(policies, i);
      }
      assert policies[..|policies|] == policies;
    }
  }

  ghost function CeilingProtected(ps: seq<Policy>): set<Path> { set c, s | c in ps && s in Protected(c) :: s }

  lemma GrowCeilings(ps: seq<Policy>, i: nat)
    requires i < |ps|
    ensures CeilingAtoms(ps[..i + 1]) == CeilingAtoms(ps[..i]) + Atoms(ps[i])
    ensures CeilingProtected(ps[..i + 1]) == CeilingProtected(ps[..i]) + Protected(ps[i])
  {
    assert forall c :: c in ps[..i + 1] <==> c in ps[..i] || c == ps[i];
  }

  method ComputeRevision(p: Policy) returns (rev: Revision)
    ensures rev == RevisionOf(p)
  {
    var collector := new Collector();
    collector.Collect(p);
    rev := Revision(collector.atoms, collector.sources);
  }

  /** The lists that intersecting appends to. */
  class Builder {
    var seen: set<Atom>
    var ceilings: seq<Policy>
    var sources: seq<Source>

    ghost function State(): Retained
      reads this
    {
      Retained(seen, ceilings, sources)
    }

    constructor (root: Policy)
      ensures State() == Retained({AtomOf(root)}, [], root.sources)
    {
      seen, ceilings, sources := {AtomOf(root)}, [], root.sources;
    }

    method Retain(policy: Policy)
      modifies this
      ensures State() == Intersection.Retain(old(State()), policy)
      decreases policy, 1
    {
      sources := sources + policy.sources;
      var key := AtomOf(policy);
      if key !in seen {
        seen := seen + {key};
        ceilings := ceilings + [policy.(ceilings := [])];
      } else {
        assert seen + {key} == seen;
      }
      RetainEach(policy.ceilings);
    }

    method RetainEach(policies: seq<Policy>)
      modifies this
      ensures State() == Intersection.RetainAll(old(State()), policies)
      decreases policies, 0
    {
      for i := 0 to |policies|
        invariant Intersection.RetainAll(State(), policies[i..]) == Intersection.RetainAll(old(State()), policies)
      {
        assert policies[i..][1..] == policies[i + 1..];
        Retain(policies[i]);
      }
    }
  }

  /** The first policy, or one of its ceilings, states the second already. */
  method Known(p: Policy, q: Policy) returns (known: bool)
    ensures known <==> RevisionOf(p) == RevisionOf(q) || exists c :: c in p.ceilings && RevisionOf(c) == RevisionOf(q)
  {
    var theirs := ComputeRevision(q);
    var ours := ComputeRevision(p);
    known := ours == theirs;
    if !known {
      known := StatesAny(p.ceilings, theirs);
    }
  }

  method StatesAny(policies: seq<Policy>, revision: Revision) returns (found: bool)
    ensures found <==> exists c :: c in policies && RevisionOf(c) == revision
  {
    for i := 0 to |policies|
      invariant forall k | 0 <= k < i :: RevisionOf(policies[k]) != revision
    {
      var own := ComputeRevision(policies[i]);
      if own == revision {
        return true;
      }
    }
    found := false;
  }

  method IntersectPolicies(p: Policy, q: Policy) returns (r: Option<Policy>)
    ensures r == Intersect(p, q)
  {
    if p.workspace != q.workspace {
      return None;
    }
    var known := Known(p, q);
    if known {
      return Some(p);
    }
    var builder := new Builder(p);
    builder.RetainEach(p.ceilings);
    builder.Retain(q);
    assert builder.State() == Merged(p, q);
    r := Some(p.(ceilings := builder.ceilings, sources := Dedup(builder.sources)));
  }
}
