/**
 The canonical revision of a policy tree: the set of its declarations, order inside a
 declaration forgotten, and the set of its absolute source paths. Digests are modelled by
 the value they digest. Every decision of the tree is a function of its revision.
 */
module Revisions {
  import opened Paths
  import opened Permissions

  /** One declaration without its sources and ceilings, its lists as multisets. */
  datatype Atom = Atom(
    workspace: Path,
    profile: Profile,
    approval: Approval,
    rules: multiset<PathRule>,
    tools: multiset<ToolRule>,
    decision: Decision,
    allowedDomains: multiset<string>,
    deniedDomains: multiset<string>,
    networkRules: multiset<NetworkRule>,
    privatePaths: multiset<Path>)

  datatype Revision = Revision(atoms: set<Atom>, sources: set<Path>)

  function AtomOf(p: Policy): Atom {
    Atom(p.workspace, p.profile, p.approval, multiset(p.filesystem), multiset(p.tools), p.network.decision,
         multiset(p.network.allowedDomains), multiset(p.network.deniedDomains), multiset(p.network.rules),
         multiset(p.privatePaths))
  }

  /** One declaration is another up to the order of its lists, sources and ceilings aside. */
  lemma SameAtom(p: Policy, q: Policy)
    ensures AtomOf(p) == AtomOf(q) <==>
            && p.workspace == q.workspace && p.profile == q.profile && p.approval == q.approval
            && multiset(p.filesystem) == multiset(q.filesystem) && multiset(p.tools) == multiset(q.tools)
            && multiset(p.privatePaths) == multiset(q.privatePaths)
            && p.network.decision == q.network.decision
            && multiset(p.network.allowedDomains) == multiset(q.network.allowedDomains)
            && multiset(p.network.deniedDomains) == multiset(q.network.deniedDomains)
            && multiset(p.network.rules) == multiset(q.network.rules)
  {
  }

  ghost function Atoms(p: Policy): set<Atom> {
    {AtomOf(p)} + set c, a | c in p.ceilings && a in Atoms(c) :: a
  }

  ghost function Protected(p: Policy): set<Path> {
    SourcePaths(p.sources) + set c, s | c in p.ceilings && s in Protected(c) :: s
  }

  ghost function RevisionOf(p: Policy): Revision {
    Revision(Atoms(p), Protected(p))
  }

  ghost function Join(a: Revision, b: Revision): Revision {
    Revision(a.atoms + b.atoms, a.sources + b.sources)
  }

  // ----- Path decisions from the revision

  ghost predicate AtomAllows(w: World, a: Atom, path: Path, write: bool) {
    && w.resolve(path).Some?
    && !(write && a.profile == ReadOnly)
    && forall c | c in Candidates(w, path) ::
         CandidateAllowed(w, (set r | r in a.rules), (set x | x in a.privatePaths), c, write)
  }

  ghost predicate SparesSources(w: World, sources: set<Path>, path: Path) {
    forall c | c in Candidates(w, path) :: AvoidsSources(w, sources, c)
  }

  ghost predicate RevisionAllows(w: World, rev: Revision, path: Path, write: bool) {
    && (forall a | a in rev.atoms :: AtomAllows(w, a, path, write))
    && (write ==> SparesSources(w, rev.sources, path))
  }

  lemma NodeByAtom(w: World, p: Policy, path: Path, write: bool)
    ensures NodeAllows(w, p, path, write)
       <==> AtomAllows(w, AtomOf(p), path, write) && (write ==> SparesSources(w, SourcePaths(p.sources), path))
  {
    var a := AtomOf(p);
    assert (set r | r in a.rules) == RuleSet(p.filesystem);
    assert (set x | x in a.privatePaths) == PathSet(p.privatePaths);
  }

  lemma RevisionByCeilings(w: World, p: Policy, path: Path, write: bool)
    ensures RevisionAllows(w, RevisionOf(p), path, write) <==>
            NodeAllows(w, p, path, write) && forall c | c in p.ceilings :: RevisionAllows(w, RevisionOf(c), path, write)
  {
    NodeByAtom(w, p, path, write);
    AtomsByCeilings(w, p, path, write);
    SparesByCeilings(w, p, path);
  }

  lemma AtomsByCeilings(w: World, p: Policy, path: Path, write: bool)
    ensures (forall a | a in Atoms(p) :: AtomAllows(w, a, path, write)) <==>
            && AtomAllows(w, AtomOf(p), path, write)
            && forall c | c in p.ceilings :: forall a | a in Atoms(c) :: AtomAllows(w, a, path, write)
  {
    if forall a | a in Atoms(p) :: AtomAllows(w, a, path, write) {
      forall c, a | c in p.ceilings && a in Atoms(c) ensures AtomAllows(w, a, path, write) {
        assert a in Atoms(p);
      }
    }
  }

  lemma SparesByCeilings(w: World, p: Policy, path: Path)
    ensures SparesSources(w, Protected(p), path) <==>
            && SparesSources(w, SourcePaths(p.sources), path)
            && forall c | c in p.ceilings :: SparesSources(w, Protected(c), path)
  {
    SparesSubset(w, SourcePaths(p.sources), Protected(p), path);
    forall c | c in p.ceilings ensures SparesSources(w, Protected(p), path) ==> SparesSources(w, Protected(c), path) {
      assert Protected(c) <= Protected(p);
      SparesSubset(w, Protected(c), Protected(p), path);
    }
    if SparesSources(w, SourcePaths(p.sources), path)
       && forall c | c in p.ceilings :: SparesSources(w, Protected(c), path) {
      forall x, s | x in Candidates(w, path) && s in Protected(p) ensures !w.under(x, s) && !w.same(x, s) {
        if s in SourcePaths(p.sources) {
          assert AvoidsSources(w, SourcePaths(p.sources), x);
        } else {
          var c :| c in p.ceilings && s in Protected(c);
          assert AvoidsSources(w, Protected(c), x);
        }
      }
    }
  }

  /** The tree's path decision is the revision's. */
  lemma {:induction false} AllowsByRevision(w: World, p: Policy, path: Path, write: bool)
    ensures Allows(w, p, path, write) <==> RevisionAllows(w, RevisionOf(p), path, write)
    decreases p
  {
    RevisionByCeilings(w, p, path, write);
    forall c | c in p.ceilings
      ensures Allows(w, c, path, write) <==> RevisionAllows(w, RevisionOf(c), path, write)
    {
      AllowsByRevision(w, c, path, write);
    }
  }

  lemma SparesSubset(w: World, some: set<Path>, all: set<Path>, path: Path)
    requires some <= all
    ensures SparesSources(w, all, path) ==> SparesSources(w, some, path)
  {
    if SparesSources(w, all, path) {
      forall c | c in Candidates(w, path) ensures AvoidsSources(w, some, c) {
        assert AvoidsSources(w, all, c);
      }
    }
  }

  // ----- Levels from the revision

  /** A tree maximum is at most `k` exactly when every atom keeps within `k`. */
  lemma {:induction false} TreeMaxByAtoms(own: Policy -> Level, p: Policy, k: Level, within: iset<Atom>)
    requires forall n: Policy :: AtomOf(n) in within <==> AtMost(own(n), k)
    ensures AtMost(TreeMax(own, p), k) <==> forall a | a in Atoms(p) :: a in within
    decreases p, 1
  {
    CeilingMaxByAtoms(own, p.ceilings, k, within);
    assert AtomOf(p) in within <==> AtMost(own(p), k);
    AtomsWithin(p, within);
  }

  lemma AtomsWithin(p: Policy, within: iset<Atom>)
    ensures (forall a | a in Atoms(p) :: a in within)
       <==> AtomOf(p) in within && forall c | c in p.ceilings :: forall a | a in Atoms(c) :: a in within
  {
    if forall a | a in Atoms(p) :: a in within {
      forall c, a | c in p.ceilings && a in Atoms(c) ensures a in within {
        assert a in Atoms(p);
      }
    }
  }

  lemma {:induction false} CeilingMaxByAtoms(own: Policy -> Level, cs: seq<Policy>, k: Level, within: iset<Atom>)
    requires forall n: Policy :: AtomOf(n) in within <==> AtMost(own(n), k)
    ensures AtMost(CeilingMax(own, cs), k) <==> forall c | c in cs :: forall a | a in Atoms(c) :: a in within
    decreases cs, 0
  {
    if cs != [] {
      TreeMaxByAtoms(own, cs[0], k, within);
      CeilingMaxByAtoms(own, cs[1..], k, within);
      assert cs == [cs[0]] + cs[1..];
    }
  }

  ghost predicate AtomTool(w: World, a: Atom, name: string, k: Level) {
    forall r | r in a.tools && w.matches(name, r.pattern) :: AtMost(r.decision, k)
  }

  predicate MatchesSome(host: string, domains: multiset<string>) {
    exists d :: d in domains && DomainMatches(host, d)
  }

  predicate RuleApplies(host: string, rules: multiset<NetworkRule>) {
    exists r :: r in rules && DomainMatches(host, r.domain)
  }

  predicate RulesWithin(host: string, rules: multiset<NetworkRule>, k: Level) {
    forall r | r in rules && DomainMatches(host, r.domain) :: AtMost(r.decision, k)
  }

  ghost predicate AtomNetwork(a: Atom, url: Url, k: Level) {
    if !Routable(url) || MatchesSome(url.host, a.deniedDomains)
       || (a.allowedDomains != multiset{} && !MatchesSome(url.host, a.allowedDomains))
    then AtMost(Forbid, k)
    else if a.decision != Forbid && RuleApplies(url.host, a.networkRules)
    then RulesWithin(url.host, a.networkRules, k)
    else AtMost(a.decision, k)
  }

  ghost predicate AtomCommand(a: Atom, k: Level) {
    if a.allowedDomains != multiset{} || a.deniedDomains != multiset{} || a.networkRules != multiset{}
    then AtMost(Forbid, k) else AtMost(a.decision, k)
  }

  lemma {:induction false} ToolLevelsHold(w: World, tools: seq<ToolRule>, name: string, d: Level)
    ensures d in ToolLevels(w, tools, name)
       <==> exists r :: r in tools && w.matches(name, r.pattern) && r.decision == d
  {
    if tools != [] {
      ToolLevelsHold(w, tools[1..], name, d);
      assert tools == [tools[0]] + tools[1..];
    }
  }

  lemma {:induction false} DomainLevelsHold(rules: seq<NetworkRule>, host: string, d: Level)
    ensures d in DomainLevels(rules, host)
       <==> exists r :: r in rules && DomainMatches(host, r.domain) && r.decision == d
  {
    if rules != [] {
      DomainLevelsHold(rules[1..], host, d);
      assert rules == [rules[0]] + rules[1..];
    }
  }

  lemma NodeToolByAtom(w: World, n: Policy, name: string, k: Level)
    ensures AtomTool(w, AtomOf(n), name, k) <==> AtMost(MaxOf(Unset, ToolLevels(w, n.tools, name)), k)
  {
    MaxOfAtMost(Unset, ToolLevels(w, n.tools, name), k);
    forall d ensures d in ToolLevels(w, n.tools, name)
      <==> exists r :: r in n.tools && w.matches(name, r.pattern) && r.decision == d
    {
      ToolLevelsHold(w, n.tools, name, d);
    }
    assert forall r :: r in AtomOf(n).tools <==> r in n.tools;
  }

  lemma EmptyMultiset<T>(xs: seq<T>)
    ensures multiset(xs) == multiset{} <==> xs == []
  {
    if xs != [] {
      assert xs[0] in multiset(xs);
    }
  }

  lemma RuleAppliesByLevels(rules: seq<NetworkRule>, host: string)
    ensures RuleApplies(host, multiset(rules)) <==> DomainLevels(rules, host) != []
  {
    var levels := DomainLevels(rules, host);
    if levels != [] {
      DomainLevelsHold(rules, host, levels[0]);
    }
    if r :| r in rules && DomainMatches(host, r.domain) {
      DomainLevelsHold(rules, host, r.decision);
    }
  }

  lemma RulesWithinByLevels(rules: seq<NetworkRule>, host: string, k: Level)
    ensures RulesWithin(host, multiset(rules), k) <==> AtMost(MaxOf(Unset, DomainLevels(rules, host)), k)
  {
    var levels := DomainLevels(rules, host);
    MaxOfAtMost(Unset, levels, k);
    if RulesWithin(host, multiset(rules), k) {
      forall d | d in levels ensures AtMost(d, k) {
        DomainLevelsHold(rules, host, d);
      }
    } else {
      var r :| r in rules && DomainMatches(host, r.domain) && !AtMost(r.decision, k);
      DomainLevelsHold(rules, host, r.decision);
    }
  }

  lemma NodeNetworkByAtom(n: Policy, url: Url, k: Level)
    ensures AtomNetwork(AtomOf(n), url, k) <==> AtMost(NodeNetwork(n.network, url), k)
  {
    if Routable(url) {
      EmptyMultiset(n.network.allowedDomains);
      RuleAppliesByLevels(n.network.rules, url.host);
      RulesWithinByLevels(n.network.rules, url.host, k);
      assert MatchesSome(url.host, multiset(n.network.deniedDomains)) == MatchesAny(url.host, n.network.deniedDomains);
      assert MatchesSome(url.host, multiset(n.network.allowedDomains))
          == MatchesAny(url.host, n.network.allowedDomains);
    }
  }

  lemma NodeCommandByAtom(n: Policy, k: Level)
    ensures AtomCommand(AtomOf(n), k) <==> AtMost(NodeCommandNetwork(n.network), k)
  {
    EmptyMultiset(n.network.allowedDomains);
    EmptyMultiset(n.network.deniedDomains);
    EmptyMultiset(n.network.rules);
  }

  ghost function WithinTool(w: World, name: string, k: Level): iset<Atom> { iset a | AtomTool(w, a, name, k) }

  lemma OwnToolWithin(w: World, name: string, k: Level)
    ensures forall n: Policy :: AtomOf(n) in WithinTool(w, name, k) <==> AtMost(OwnTool(w, name)(n), k)
  {
    forall n: Policy ensures AtomOf(n) in WithinTool(w, name, k) <==> AtMost(OwnTool(w, name)(n), k) {
      NodeToolByAtom(w, n, name, k);
    }
  }

  lemma ToolByRevision(w: World, p: Policy, name: string, k: Level)
    ensures AtMost(ToolDecision(w, p, name), k) <==> forall a | a in Atoms(p) :: a in WithinTool(w, name, k)
  {
    OwnToolWithin(w, name, k);
    TreeMaxByAtoms(OwnTool(w, name), p, k, WithinTool(w, name, k));
  }

  ghost function WithinNetwork(url: Url, k: Level): iset<Atom> { iset a | AtomNetwork(a, url, k) }

  lemma OwnNetworkWithin(url: Url, k: Level)
    ensures forall n: Policy :: AtomOf(n) in WithinNetwork(url, k) <==> AtMost(OwnNetwork(url)(n), k)
  {
    forall n: Policy ensures AtomOf(n) in WithinNetwork(url, k) <==> AtMost(OwnNetwork(url)(n), k) {
      NodeNetworkByAtom(n, url, k);
    }
  }

  lemma NetworkByRevision(p: Policy, url: Url, k: Level)
    ensures AtMost(NetworkDecision(p, url), k) <==> forall a | a in Atoms(p) :: a in WithinNetwork(url, k)
  {
    OwnNetworkWithin(url, k);
    TreeMaxByAtoms(OwnNetwork(url), p, k, WithinNetwork(url, k));
  }

  ghost function WithinCommand(k: Level): iset<Atom> { iset a | AtomCommand(a, k) }

  lemma OwnCommandWithin(k: Level)
    ensures forall n: Policy :: AtomOf(n) in WithinCommand(k) <==> AtMost(OwnCommand()(n), k)
  {
    forall n: Policy ensures AtomOf(n) in WithinCommand(k) <==> AtMost(OwnCommand()(n), k) {
      NodeCommandByAtom(n, k);
    }
  }

  lemma CommandByRevision(p: Policy, k: Level)
    ensures AtMost(CommandNetwork(p), k) <==> forall a | a in Atoms(p) :: a in WithinCommand(k)
  {
    OwnCommandWithin(k);
    TreeMaxByAtoms(OwnCommand(), p, k, WithinCommand(k));
  }

  lemma {:induction false} ApprovalByRevision(p: Policy)
    ensures EffectiveNever(p) <==> exists a :: a in RevisionOf(p).atoms && a.approval == Never
    decreases p
  {
    forall c | c in p.ceilings
      ensures EffectiveNever(c) <==> exists a :: a in Atoms(c) && a.approval == Never
    {
      ApprovalByRevision(c);
    }
    assert AtomOf(p) in Atoms(p);
  }

  // ----- What follows for whole policies

  /** `r` decides as `p` and `q` together: the narrower of the two on every question. */
  ghost predicate IsMeet(w: World, r: Policy, p: Policy, q: Policy) {
    && (forall path, write :: Allows(w, r, path, write) <==> Allows(w, p, path, write) && Allows(w, q, path, write))
    && (forall name :: ToolDecision(w, r, name) == Max(ToolDecision(w, p, name), ToolDecision(w, q, name)))
    && (forall url :: NetworkDecision(r, url) == Max(NetworkDecision(p, url), NetworkDecision(q, url)))
    && CommandNetwork(r) == Max(CommandNetwork(p), CommandNetwork(q))
    && (EffectiveNever(r) <==> EffectiveNever(p) || EffectiveNever(q))
  }

  lemma JoinAllows(w: World, r: Policy, p: Policy, q: Policy, path: Path, write: bool)
    requires RevisionOf(r) == Join(RevisionOf(p), RevisionOf(q))
    ensures Allows(w, r, path, write) <==> Allows(w, p, path, write) && Allows(w, q, path, write)
  {
    AllowsByRevision(w, r, path, write);
    AllowsByRevision(w, p, path, write);
    AllowsByRevision(w, q, path, write);
    SparesSubset(w, Protected(p), Protected(r), path);
    SparesSubset(w, Protected(q), Protected(r), path);
    if write && SparesSources(w, Protected(p), path) && SparesSources(w, Protected(q), path) {
      forall c | c in Candidates(w, path) ensures AvoidsSources(w, Protected(r), c) {
        assert AvoidsSources(w, Protected(p), c) && AvoidsSources(w, Protected(q), c);
      }
    }
  }

  lemma JoinTools(w: World, r: Policy, p: Policy, q: Policy, name: string)
    requires RevisionOf(r) == Join(RevisionOf(p), RevisionOf(q))
    ensures ToolDecision(w, r, name) == Max(ToolDecision(w, p, name), ToolDecision(w, q, name))
  {
    var x, y, z := ToolDecision(w, r, name), ToolDecision(w, p, name), ToolDecision(w, q, name);
    forall k ensures AtMost(x, k) <==> AtMost(y, k) && AtMost(z, k) {
      ToolByRevision(w, r, name, k);
      ToolByRevision(w, p, name, k);
      ToolByRevision(w, q, name, k);
    }
    MaxByThresholds(x, y, z);
  }

  lemma JoinNetwork(r: Policy, p: Policy, q: Policy, url: Url)
    requires RevisionOf(r) == Join(RevisionOf(p), RevisionOf(q))
    ensures NetworkDecision(r, url) == Max(NetworkDecision(p, url), NetworkDecision(q, url))
  {
    var x, y, z := NetworkDecision(r, url), NetworkDecision(p, url), NetworkDecision(q, url);
    forall k ensures AtMost(x, k) <==> AtMost(y, k) && AtMost(z, k) {
      NetworkByRevision(r, url, k);
      NetworkByRevision(p, url, k);
      NetworkByRevision(q, url, k);
    }
    MaxByThresholds(x, y, z);
  }

  lemma JoinCommand(r: Policy, p: Policy, q: Policy)
    requires RevisionOf(r) == Join(RevisionOf(p), RevisionOf(q))
    ensures CommandNetwork(r) == Max(CommandNetwork(p), CommandNetwork(q))
  {
    var x, y, z := CommandNetwork(r), CommandNetwork(p), CommandNetwork(q);
    forall k ensures AtMost(x, k) <==> AtMost(y, k) && AtMost(z, k) {
      CommandByRevision(r, k);
      CommandByRevision(p, k);
      CommandByRevision(q, k);
    }
    MaxByThresholds(x, y, z);
  }

  /** A policy whose revision joins two others is their meet. */
  lemma JoinIsMeet(w: World, r: Policy, p: Policy, q: Policy)
    requires RevisionOf(r) == Join(RevisionOf(p), RevisionOf(q))
    ensures IsMeet(w, r, p, q)
  {
    forall path, write
      ensures Allows(w, r, path, write) <==> Allows(w, p, path, write) && Allows(w, q, path, write)
    {
      JoinAllows(w, r, p, q, path, write);
    }
    forall name
      ensures ToolDecision(w, r, name) == Max(ToolDecision(w, p, name), ToolDecision(w, q, name))
    {
      JoinTools(w, r, p, q, name);
    }
    forall url
      ensures NetworkDecision(r, url) == Max(NetworkDecision(p, url), NetworkDecision(q, url))
    {
      JoinNetwork(r, p, q, url);
    }
    JoinCommand(r, p, q);
    ApprovalByRevision(r);
    ApprovalByRevision(p);
    ApprovalByRevision(q);
  }

  /** Equal revisions decide alike, whatever the order and nesting of their rules. */
  lemma EqualRevisionsDecideAlike(w: World, p: Policy, q: Policy)
    requires RevisionOf(p) == RevisionOf(q)
    ensures IsMeet(w, p, q, q) && IsMeet(w, q, p, p)
  {
    assert Join(RevisionOf(q), RevisionOf(q)) == RevisionOf(p) == Join(RevisionOf(p), RevisionOf(p));
    JoinIsMeet(w, p, q, q);
    JoinIsMeet(w, q, p, p);
  }
}
