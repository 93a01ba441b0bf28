/**
 Handing a policy to a child workspace: rules and private paths under the source root move to
 the destination, and a boundary policy keeps everything else out.
 */
module Relocation {
  import opened Paths
  import opened Permissions
  import opened Revisions
  import opened Selection
  import opened Intersection
  import opened Resolution
  import opened PolicyMeaning

  function Move(path: Path, source: Path, destination: Path): Path {
    if source <= path then destination + path[|source|..] else path
  }

  /** What lies below the source lands below the destination, the rest stays. */
  lemma MoveMeans(path: Path, rel: Path, s: Path, d: Path)
    ensures Move(s + rel, s, d) == d + rel
    ensures !(s <= path) ==> Move(path, s, d) == path
  {
    assert (s + rel)[|s|..] == rel;
  }

  function MoveRules(rules: seq<PathRule>, source: Path, destination: Path): seq<PathRule> {
    seq(|rules|, i requires 0 <= i < |rules| => PathRule(Move(rules[i].path, source, destination), rules[i].access))
  }

  function MovePaths(paths: seq<Path>, source: Path, destination: Path): seq<Path> {
    seq(|paths|, i requires 0 <= i < |paths| => Move(paths[i], source, destination))
  }

  function BoundaryDeclaration(readOnly: bool): Declaration {
    Declaration(if readOnly then ReadOnly else WorkspaceProfile, OnRequest, [], [], NetworkPolicy(Ask, [], [], []))
  }

  /** The ceiling that admits the destination only, and leaves the network alone. */
  ghost function Boundary(w: World, destination: Path, readOnly: bool, commandState: Path): Policy {
    Resolved(w, BoundaryDeclaration(readOnly), destination, [destination], commandState)
      .(network := NetworkPolicy(Allow, [], [], []))
  }

  ghost function Translated(w: World, p: Policy, source: Path, destination: Path, commandState: Path): Policy
    decreases p, 0
  {
    p.(workspace := destination,
       filesystem := MoveRules(p.filesystem, source, destination),
       privatePaths := Dedup(MovePaths(p.privatePaths, source, destination) + [destination + [".praxis"]]),
       ceilings := seq(|p.ceilings|, i requires 0 <= i < |p.ceilings| =>
                         Relocate(w, p.ceilings[i], source, destination, commandState)))
  }

  ghost function Relocate(w: World, p: Policy, source: Path, destination: Path, commandState: Path): Policy
    decreases p, 1
  {
    var q := Translated(w, p, source, destination, commandState);
    Intersect(q, Boundary(w, destination, EffectiveReadOnly(p), commandState)).value
  }

  lemma RelocateIsMeet(w: World, p: Policy, s: Path, d: Path, cs: Path)
    ensures IsMeet(w, Relocate(w, p, s, d, cs), Translated(w, p, s, d, cs), Boundary(w, d, EffectiveReadOnly(p), cs))
  {
    IntersectionIsMeet(w, Translated(w, p, s, d, cs), Boundary(w, d, EffectiveReadOnly(p), cs));
  }

  // ----- Confinement

  lemma BoundaryRulesInside(w: World, d: Path, readOnly: bool, cs: Path)
    ensures forall r | r in Boundary(w, d, readOnly, cs).filesystem :: d <= r.path
  {
    var base := BasePolicy(BoundaryDeclaration(readOnly), d);
    assert base.filesystem == [PathRule(d, if readOnly then Read else Write)];
    assert Guards(w, base, [d]) == GuardsAt(w, base, d) by {
      assert [d][..0] == [] && Guards(w, base, []) == [];
    }
    forall i | 0 <= i < |PROTECTED| ensures d <= GuardsAt(w, base, d)[i].path {
    }
  }

  /** Whatever a relocated policy lets through lies at or below the destination, links followed. */
  lemma RelocationConfines(w: World, p: Policy, s: Path, d: Path, cs: Path, path: Path, write: bool)
    requires PrefixWorld(w) && Allows(w, Relocate(w, p, s, d, cs), path, write)
    ensures w.resolve(path).Some? && d <= path && d <= w.resolve(path).value
  {
    CandidatesAre(w, path);
    var boundary := Boundary(w, d, EffectiveReadOnly(p), cs);
    RelocateIsMeet(w, p, s, d, cs);
    BoundaryRulesInside(w, d, EffectiveReadOnly(p), cs);
    assert Allows(w, boundary, path, write);
    forall c | c in Candidates(w, path) ensures d <= c {
      var r :| Selects(w, RuleSet(boundary.filesystem), c, r);
      assert d <= r.path && r.path <= c;
    }
  }

  // ----- Tools, network and approval

  lemma {:induction false} CeilingMaxPointwise(own: Policy -> Level, xs: seq<Policy>, ys: seq<Policy>)
    requires |xs| == |ys| && forall i | 0 <= i < |xs| :: TreeMax(own, xs[i]) == TreeMax(own, ys[i])
    ensures CeilingMax(own, xs) == CeilingMax(own, ys)
  {
    if xs != [] {
      CeilingMaxPointwise(own, xs[1..], ys[1..]);
    }
  }

  lemma BoundaryLevels(w: World, d: Path, readOnly: bool, cs: Path, name: string, url: Url)
    ensures ToolDecision(w, Boundary(w, d, readOnly, cs), name) == Unset
    ensures NetworkDecision(Boundary(w, d, readOnly, cs), url) == if Routable(url) then Allow else Forbid
    ensures CommandNetwork(Boundary(w, d, readOnly, cs)) == Allow
    ensures !EffectiveNever(Boundary(w, d, readOnly, cs))
  {
    var b := Boundary(w, d, readOnly, cs);
    assert b.ceilings == [] && ToolLevels(w, [], name) == [] && DomainLevels([], "") == [];
    assert CeilingMax(OwnTool(w, name), []) == Unset;
    assert CeilingMax(OwnNetwork(url), []) == Unset;
    assert CeilingMax(OwnCommand(), []) == Unset;
    assert b.network == NetworkPolicy(Allow, [], [], []);
    assert NodeNetwork(b.network, url) == if Routable(url) then Allow else Forbid;
  }

  lemma NodeNetworkFloor(n: NetworkPolicy, url: Url)
    ensures AtMost(if Routable(url) then Allow else Forbid, NodeNetwork(n, url))
    ensures AtMost(Allow, NodeCommandNetwork(n))
  {
    if Routable(url) {
      DomainLevelsDecided(n.rules, url.host);
    }
  }

  lemma {:induction false} DomainLevelsDecided(rules: seq<NetworkRule>, host: string)
    ensures DomainLevels(rules, host) != [] ==> AtMost(Allow, MaxOf(Unset, DomainLevels(rules, host)))
  {
    if rules != [] {
      var rest := DomainLevels(rules[1..], host);
      DomainLevelsDecided(rules[1..], host);
      if DomainMatches(host, rules[0].domain) {
        assert ([rules[0].decision] + rest)[1..] == rest;
      } else {
        assert [] + rest == rest;
      }
    }
  }

  ghost predicate SameLevels(w: World, a: Policy, b: Policy, name: string, url: Url) {
    && ToolDecision(w, a, name) == ToolDecision(w, b, name)
    && NetworkDecision(a, url) == NetworkDecision(b, url)
    && CommandNetwork(a) == CommandNetwork(b)
  }

  lemma TranslationKeepsLevels(w: World, p: Policy, s: Path, d: Path, cs: Path, name: string, url: Url)
    requires var t := Translated(w, p, s, d, cs);
             forall i | 0 <= i < |p.ceilings| :: SameLevels(w, t.ceilings[i], p.ceilings[i], name, url)
    ensures SameLevels(w, Translated(w, p, s, d, cs), p, name, url)
  {
    var t := Translated(w, p, s, d, cs);
    assert t.tools == p.tools && t.network == p.network;
    LevelsByCeilings(w, t, p, name, url);
  }

  lemma LevelsByCeilings(w: World, t: Policy, p: Policy, name: string, url: Url)
    requires t.tools == p.tools && t.network == p.network && |t.ceilings| == |p.ceilings|
    requires forall i | 0 <= i < |p.ceilings| :: SameLevels(w, t.ceilings[i], p.ceilings[i], name, url)
    ensures SameLevels(w, t, p, name, url)
  {
    forall i | 0 <= i < |p.ceilings|
      ensures TreeMax(OwnTool(w, name), t.ceilings[i]) == TreeMax(OwnTool(w, name), p.ceilings[i])
      ensures TreeMax(OwnNetwork(url), t.ceilings[i]) == TreeMax(OwnNetwork(url), p.ceilings[i])
      ensures TreeMax(OwnCommand(), t.ceilings[i]) == TreeMax(OwnCommand(), p.ceilings[i])
    {
      assert SameLevels(w, t.ceilings[i], p.ceilings[i], name, url);
    }
    CeilingMaxPointwise(OwnTool(w, name), t.ceilings, p.ceilings);
    CeilingMaxPointwise(OwnNetwork(url), t.ceilings, p.ceilings);
    CeilingMaxPointwise(OwnCommand(), t.ceilings, p.ceilings);
  }

  lemma RelocationStepLevels(w: World, p: Policy, s: Path, d: Path, cs: Path, name: string, url: Url)
    requires SameLevels(w, Translated(w, p, s, d, cs), p, name, url)
    ensures SameLevels(w, Relocate(w, p, s, d, cs), p, name, url)
  {
    RelocateIsMeet(w, p, s, d, cs);
    BoundaryLevels(w, d, EffectiveReadOnly(p), cs, name, url);
    NodeNetworkFloor(p.network, url);
  }

  lemma {:induction false} RelocationKeepsLevels(w: World, p: Policy, s: Path, d: Path, cs: Path, name: string,
                                                 url: Url)
    ensures SameLevels(w, Relocate(w, p, s, d, cs), p, name, url)
    decreases p
  {
    var t := Translated(w, p, s, d, cs);
    forall i | 0 <= i < |p.ceilings| ensures SameLevels(w, t.ceilings[i], p.ceilings[i], name, url) {
      RelocationKeepsLevels(w, p.ceilings[i], s, d, cs, name, url);
    }
    TranslationKeepsLevels(w, p, s, d, cs, name, url);
    RelocationStepLevels(w, p, s, d, cs, name, url);
  }

  lemma {:induction false} RelocationKeepsApproval(w: World, p: Policy, s: Path, d: Path, cs: Path)
    ensures EffectiveNever(Relocate(w, p, s, d, cs)) <==> EffectiveNever(p)
    decreases p
  {
    var t := Translated(w, p, s, d, cs);
    forall i | 0 <= i < |p.ceilings| ensures EffectiveNever(t.ceilings[i]) <==> EffectiveNever(p.ceilings[i]) {
      RelocationKeepsApproval(w, p.ceilings[i], s, d, cs);
    }
    ApprovalByCeilings(t, p);
    RelocateIsMeet(w, p, s, d, cs);
    BoundaryLevels(w, d, EffectiveReadOnly(p), cs, "", Malformed);
  }

  lemma ApprovalByCeilings(t: Policy, p: Policy)
    requires t.approval == p.approval && |t.ceilings| == |p.ceilings|
    requires forall i | 0 <= i < |p.ceilings| :: EffectiveNever(t.ceilings[i]) <==> EffectiveNever(p.ceilings[i])
    ensures EffectiveNever(t) <==> EffectiveNever(p)
  {
    NeverAmong(t.ceilings, p.ceilings);
    NeverAmong(p.ceilings, t.ceilings);
  }

  lemma NeverAmong(xs: seq<Policy>, ys: seq<Policy>)
    requires |xs| == |ys| && forall i | 0 <= i < |xs| :: EffectiveNever(xs[i]) <==> EffectiveNever(ys[i])
    ensures (exists c :: c in xs && EffectiveNever(c)) ==> exists c :: c in ys && EffectiveNever(c)
  {
    if c :| c in xs && EffectiveNever(c) {
      var i :| 0 <= i < |xs| && xs[i] == c;
      assert ys[i] in ys;
    }
  }

  /** Tool, network, command-network and approval decisions are the parent's own. */
  lemma RelocationKeepsDecisions(w: World, p: Policy, s: Path, d: Path, cs: Path, name: string, url: Url)
    ensures ToolDecision(w, Relocate(w, p, s, d, cs), name) == ToolDecision(w, p, name)
    ensures NetworkDecision(Relocate(w, p, s, d, cs), url) == NetworkDecision(p, url)
    ensures CommandNetwork(Relocate(w, p, s, d, cs)) == CommandNetwork(p)
    ensures EffectiveNever(Relocate(w, p, s, d, cs)) <==> EffectiveNever(p)
  {
    RelocationKeepsLevels(w, p, s, d, cs, name, url);
    RelocationKeepsApproval(w, p, s, d, cs);
  }

  // ----- Paths

  /** Every node has a rule at the source root, and no rule that stays behind sits at or below the destination. */
  ghost predicate Anchored(p: Policy, s: Path, d: Path) {
    && (exists r :: r in p.filesystem && r.path == s)
    && (forall r | r in p.filesystem && !(s <= r.path) :: !(d <= r.path))
    && forall c | c in p.ceilings :: Anchored(c, s, d)
  }

  // ----- Which rule decides destination/rel

  /** The rule covers destination/rel in the child: moved along, or staying behind above it. */
  predicate Lands(s: Path, d: Path, rel: Path, r: PathRule) {
    if s <= r.path then r.path <= s + rel else r.path <= d + rel
  }

  function Depth(s: Path, d: Path, r: PathRule): int {
    if s <= r.path then |d| + |r.path| - |s| else |r.path|
  }

  ghost predicate Leads(s: Path, d: Path, r: PathRule, o: PathRule) {
    || Depth(s, d, r) > Depth(s, d, o)
    || (Depth(s, d, r) == Depth(s, d, o) && AccessOrder(r.access) >= AccessOrder(o.access))
  }

  /** Of the parent's rules, `r` decides destination/rel in the child. */
  ghost predicate Decides(rules: seq<PathRule>, s: Path, d: Path, rel: Path, r: PathRule) {
    r in rules && Lands(s, d, rel, r) && forall o | o in rules && Lands(s, d, rel, o) :: Leads(s, d, r, o)
  }

  ghost predicate LandedGrant(rules: seq<PathRule>, s: Path, d: Path, rel: Path, write: bool) {
    exists r :: Decides(rules, s, d, rel, r) && Permits(r.access, write)
  }

  /** A rule that moves with the workspace decides. */
  ghost predicate MovedDecides(rules: seq<PathRule>, s: Path, d: Path, rel: Path) {
    exists r :: Decides(rules, s, d, rel, r) && s <= r.path
  }

  function Moved(s: Path, d: Path, r: PathRule): PathRule { PathRule(Move(r.path, s, d), r.access) }

  lemma MovedLands(s: Path, d: Path, rel: Path, r: PathRule)
    ensures Moved(s, d, r).path <= d + rel <==> Lands(s, d, rel, r)
    ensures |Moved(s, d, r).path| == Depth(s, d, r)
  {
    if s <= r.path {
      MovePrefix(r.path, s, d, rel);
    }
  }

  lemma RuleMembers(rules: seq<PathRule>, s: Path, d: Path)
    ensures forall r | r in rules :: Moved(s, d, r) in RuleSet(MoveRules(rules, s, d))
    ensures forall m | m in RuleSet(MoveRules(rules, s, d)) :: exists r :: r in rules && m == Moved(s, d, r)
  {
    var moved := MoveRules(rules, s, d);
    forall r | r in rules ensures Moved(s, d, r) in moved {
      var i :| 0 <= i < |rules| && rules[i] == r;
      assert moved[i] == Moved(s, d, r);
    }
    forall m | m in moved ensures exists r :: r in rules && m == Moved(s, d, r) {
      var i :| 0 <= i < |moved| && moved[i] == m;
      assert m == Moved(s, d, rules[i]);
    }
  }

  lemma MovedSelects(w: World, rules: seq<PathRule>, s: Path, d: Path, rel: Path, r: PathRule)
    requires PrefixWorld(w) && r in rules
    ensures Selects(w, RuleSet(MoveRules(rules, s, d)), d + rel, Moved(s, d, r)) <==> Decides(rules, s, d, rel, r)
  {
    var after := RuleSet(MoveRules(rules, s, d));
    RuleMembers(rules, s, d);
    MovedLands(s, d, rel, r);
    if Decides(rules, s, d, rel, r) {
      forall m | m in after && w.under(d + rel, m.path) ensures Outranks(Moved(s, d, r), m) {
        var o :| o in rules && m == Moved(s, d, o);
        MovedLands(s, d, rel, o);
        assert Leads(s, d, r, o);
      }
    }
    if Selects(w, after, d + rel, Moved(s, d, r)) {
      forall o | o in rules && Lands(s, d, rel, o) ensures Leads(s, d, r, o) {
        MovedLands(s, d, rel, o);
        assert Outranks(Moved(s, d, r), Moved(s, d, o));
      }
    }
  }

  /** The child's rules grant destination/rel exactly when the rule that decides it, read off the parent's, permits. */
  lemma LandedDecides(w: World, rules: seq<PathRule>, s: Path, d: Path, rel: Path, write: bool)
    requires PrefixWorld(w)
    ensures Granted(w, RuleSet(MoveRules(rules, s, d)), d + rel, write) <==> LandedGrant(rules, s, d, rel, write)
  {
    var after := RuleSet(MoveRules(rules, s, d));
    RuleMembers(rules, s, d);
    if m :| Selects(w, after, d + rel, m) && Permits(m.access, write) {
      var r :| r in rules && m == Moved(s, d, r);
      MovedSelects(w, rules, s, d, rel, r);
    }
    if r :| Decides(rules, s, d, rel, r) && Permits(r.access, write) {
      MovedSelects(w, rules, s, d, rel, r);
    }
  }

  /** Where a rule that moves decides the child, it decides the parent. */
  lemma MovedRuleDecides(w: World, rules: seq<PathRule>, s: Path, d: Path, rel: Path, r: PathRule)
    requires PrefixWorld(w) && Decides(rules, s, d, rel, r) && s <= r.path
    ensures Selects(w, RuleSet(rules), s + rel, r)
  {
    forall o | o in RuleSet(rules) && w.under(s + rel, o.path) ensures Outranks(r, o) {
      if s <= o.path {
        assert Lands(s, d, rel, o) && Leads(s, d, r, o);
      } else {
        PrefixesNestOrLonger(o.path, s, s + rel);
      }
    }
  }

  lemma PrefixesNestOrLonger(a: Path, b: Path, c: Path)
    requires a <= c && b <= c && !(b <= a)
    ensures |a| < |b|
  {
    if |b| <= |a| {
      PrefixesNest(b, a, c);
    }
  }

  /** So there the child grants what the parent grants. */
  lemma MovedGrantsAlike(w: World, rules: seq<PathRule>, s: Path, d: Path, rel: Path, write: bool)
    requires PrefixWorld(w) && MovedDecides(rules, s, d, rel)
    ensures LandedGrant(rules, s, d, rel, write) <==> Granted(w, RuleSet(rules), s + rel, write)
  {
    var r :| Decides(rules, s, d, rel, r) && s <= r.path;
    MovedRuleDecides(w, rules, s, d, rel, r);
    SelectionDecides(w, RuleSet(rules), s + rel, r, write);
    forall o | Decides(rules, s, d, rel, o) ensures o.access == r.access {
      assert Leads(s, d, r, o) && Leads(s, d, o, r);
    }
  }

  /** A rule at the source root and none staying behind at or below the destination: a moved rule decides everything. */
  lemma AnchorMoves(w: World, rules: seq<PathRule>, s: Path, d: Path, rel: Path, anchor: PathRule)
    requires PrefixWorld(w) && anchor in rules && anchor.path == s
    requires forall r | r in rules && !(s <= r.path) :: !(d <= r.path)
    ensures MovedDecides(rules, s, d, rel)
  {
    RuleMembers(rules, s, d);
    MovedLands(s, d, rel, anchor);
    var m := SelectionExists(w, RuleSet(MoveRules(rules, s, d)), d + rel, Moved(s, d, anchor));
    var r :| r in rules && m == Moved(s, d, r);
    MovedSelects(w, rules, s, d, rel, r);
    if !(s <= r.path) {
      assert Leads(s, d, r, anchor);
      PrefixesNest(d, r.path, d + rel);
    }
  }

  /** At every node the rule that decides destination/rel grants the access. */
  ghost predicate TreeLanded(p: Policy, s: Path, d: Path, rel: Path, write: bool) {
    && !(write && p.profile == ReadOnly)
    && LandedGrant(p.filesystem, s, d, rel, write)
    && forall c | c in p.ceilings :: TreeLanded(c, s, d, rel, write)
  }

  /** At every node a moved rule decides destination/rel, or else the node's rules grant source/rel. */
  ghost predicate Justified(w: World, p: Policy, s: Path, d: Path, rel: Path, write: bool) {
    && (MovedDecides(p.filesystem, s, d, rel) || Granted(w, RuleSet(p.filesystem), s + rel, write))
    && forall c | c in p.ceilings :: Justified(w, c, s, d, rel, write)
  }

  /** What the child's rules grant, the parent's grant exactly when it is justified. */
  lemma {:induction false} LandedJustified(w: World, p: Policy, s: Path, d: Path, rel: Path, write: bool)
    requires PrefixWorld(w) && TreeLanded(p, s, d, rel, write)
    ensures TreeGranted(w, p, s + rel, write) <==> Justified(w, p, s, d, rel, write)
    decreases p
  {
    if MovedDecides(p.filesystem, s, d, rel) {
      MovedGrantsAlike(w, p.filesystem, s, d, rel, write);
    }
    forall c | c in p.ceilings
      ensures TreeGranted(w, c, s + rel, write) <==> Justified(w, c, s, d, rel, write)
    {
      LandedJustified(w, c, s, d, rel, write);
    }
  }

  /** An anchored policy is justified everywhere, and its child grants what it grants. */
  lemma {:induction false} AnchoredJustified(w: World, p: Policy, s: Path, d: Path, rel: Path, write: bool)
    requires PrefixWorld(w) && Anchored(p, s, d)
    ensures Justified(w, p, s, d, rel, write)
    ensures TreeLanded(p, s, d, rel, write) <==> TreeGranted(w, p, s + rel, write)
    decreases p
  {
    var anchor :| anchor in p.filesystem && anchor.path == s;
    AnchorMoves(w, p.filesystem, s, d, rel, anchor);
    MovedGrantsAlike(w, p.filesystem, s, d, rel, write);
    forall c | c in p.ceilings
      ensures Justified(w, c, s, d, rel, write)
      ensures TreeLanded(c, s, d, rel, write) <==> TreeGranted(w, c, s + rel, write)
    {
      AnchoredJustified(w, c, s, d, rel, write);
    }
  }

  // ----- Trees

  /** Every node's rules, private paths and sources aside, grant the access. */
  ghost predicate TreeGranted(w: World, p: Policy, path: Path, write: bool) {
    && !(write && p.profile == ReadOnly)
    && Granted(w, RuleSet(p.filesystem), path, write)
    && forall c | c in p.ceilings :: TreeGranted(w, c, path, write)
  }

  ghost predicate TreePrivate(p: Policy, path: Path) {
    (exists x :: x in p.privatePaths && x <= path) || exists c :: c in p.ceilings && TreePrivate(c, path)
  }

  /** Some node's private path, moved, covers the path in the child. */
  ghost predicate MovedPrivate(p: Policy, s: Path, d: Path, path: Path) {
    || (exists x :: x in p.privatePaths && Move(x, s, d) <= path)
    || exists c :: c in p.ceilings && MovedPrivate(c, s, d, path)
  }

  /** Some node keeps a private path strictly above the source root. */
  ghost predicate PrivateAbove(p: Policy, s: Path) {
    (exists x :: x in p.privatePaths && x < s) || exists c :: c in p.ceilings && PrivateAbove(c, s)
  }

  lemma MovePrefix(path: Path, s: Path, d: Path, rel: Path)
    requires s <= path
    ensures Move(path, s, d) <= d + rel <==> path <= s + rel
    ensures |Move(path, s, d)| == |d| + |path| - |s|
  {
    var tail := path[|s|..];
    assert path == s + tail;
    PrefixCancels(s, tail, rel);
    PrefixCancels(d, tail, rel);
  }

  lemma PrefixCancels(base: Path, a: Path, b: Path)
    ensures base + a <= base + b <==> a <= b
  {
    if base + a <= base + b {
      forall i | 0 <= i < |a| ensures a[i] == b[i] {
        assert (base + a)[|base| + i] == (base + b)[|base| + i];
      }
    }
  }

  /** The boundary admits the destination, its own private state aside. */
  lemma BoundaryDecides(w: World, d: Path, readOnly: bool, cs: Path, rel: Path, write: bool)
    requires Lexical(w)
    ensures Allows(w, Boundary(w, d, readOnly, cs), d + rel, write)
       <==> !(cs <= d + rel) && (write ==> !readOnly && !HasProtected(d + rel))
  {
    var decl, path := BoundaryDeclaration(readOnly), d + rel;
    var full, only := Resolved(w, decl, d, [d], cs), PathRule(d, if readOnly then Read else Write);
    SamePaths(w, full, Boundary(w, d, readOnly, cs), path, write);
    ResolvedDecides(w, decl, d, [d], cs, path, write);
    assert BaseRules(decl, d) == [only];
    OneRuleGrants(w, only, path, write);
    MetadataMeans(path);
  }

  lemma OneRuleGrants(w: World, only: PathRule, path: Path, write: bool)
    requires w.under(path, only.path) && only.access != Deny
    ensures RulesGrant(w, [only], path, write) <==> (write ==> only.access == Write)
  {
    assert Tops(w, [only], path, only);
  }

  /** The network has no part in path decisions. */
  lemma SamePaths(w: World, p: Policy, q: Policy, path: Path, write: bool)
    requires q == p.(network := q.network)
    ensures Allows(w, p, path, write) <==> Allows(w, q, path, write)
  {
    assert NodeAllows(w, p, path, write) <==> NodeAllows(w, q, path, write);
  }

  /** One translated node at the destination, in terms of the parent's node at the source. */
  lemma NodeRelocates(w: World, p: Policy, s: Path, d: Path, cs: Path, rel: Path, write: bool)
    requires Lexical(w)
    ensures NodeAllows(w, Translated(w, p, s, d, cs), d + rel, write) <==>
            && !(write && p.profile == ReadOnly)
            && LandedGrant(p.filesystem, s, d, rel, write)
            && (forall x | x in p.privatePaths :: !(Move(x, s, d) <= d + rel))
            && !([".praxis"] <= rel)
            && (write ==> !HasProtected(d + rel) && AvoidsSources(w, SourcePaths(p.sources), d + rel))
  {
    var t, path := Translated(w, p, s, d, cs), d + rel;
    LexicalCandidates(w, path);
    LandedDecides(w, p.filesystem, s, d, rel, write);
    TranslatedPrivate(w, p, s, d, cs, rel);
  }

  lemma TranslatedPrivate(w: World, p: Policy, s: Path, d: Path, cs: Path, rel: Path)
    requires Lexical(w)
    ensures (forall x | x in PathSet(Translated(w, p, s, d, cs).privatePaths) :: !w.under(d + rel, x))
       <==> (forall x | x in p.privatePaths :: !(Move(x, s, d) <= d + rel)) && !([".praxis"] <= rel)
  {
    var moved, own := MovePaths(p.privatePaths, s, d), d + [".praxis"];
    var all := Dedup(moved + [own]);
    DedupKeepsSet(moved + [own]);
    PrefixCancels(d, [".praxis"], rel);
    assert Translated(w, p, s, d, cs).privatePaths == all;
    assert forall x :: x in PathSet(all) <==> x in moved || x == own;
    assert forall x :: w.under(d + rel, x) <==> x <= d + rel;
    MovedMembers(p.privatePaths, s, d);
    if forall x | x in PathSet(all) :: !w.under(d + rel, x) {
      forall x | x in p.privatePaths ensures !(Move(x, s, d) <= d + rel) {
        assert Move(x, s, d) in moved;
      }
      assert own in PathSet(all) && !w.under(d + rel, own);
    }
    if (forall x | x in p.privatePaths :: !(Move(x, s, d) <= d + rel)) && !([".praxis"] <= rel) {
      forall y | y in PathSet(all) ensures !w.under(d + rel, y) {
        assert y in moved || y == own;
      }
    }
  }

  lemma MovedMembers(paths: seq<Path>, s: Path, d: Path)
    ensures forall x | x in paths :: Move(x, s, d) in MovePaths(paths, s, d)
    ensures forall y | y in MovePaths(paths, s, d) :: exists x :: x in paths && y == Move(x, s, d)
  {
    var moved := MovePaths(paths, s, d);
    forall x | x in paths ensures Move(x, s, d) in moved {
      var i :| 0 <= i < |paths| && paths[i] == x;
      assert moved[i] == Move(x, s, d);
    }
    forall y | y in moved ensures exists x :: x in paths && y == Move(x, s, d) {
      var i :| 0 <= i < |moved| && moved[i] == y;
      assert y == Move(paths[i], s, d);
    }
  }

  /** What the child may do at destination/rel, in terms of the parent alone. */
  ghost predicate Carries(w: World, p: Policy, s: Path, d: Path, cs: Path, rel: Path, write: bool) {
    && TreeLanded(p, s, d, rel, write)
    && !MovedPrivate(p, s, d, d + rel)
    && !([".praxis"] <= rel)
    && !(cs <= d + rel)
    && (write ==> !HasProtected(d + rel) && AvoidsSources(w, Protected(p), d + rel))
  }

  lemma CarriesByNode(w: World, p: Policy, s: Path, d: Path, cs: Path, rel: Path, write: bool)
    ensures Carries(w, p, s, d, cs, rel, write) <==>
            && !(write && p.profile == ReadOnly)
            && LandedGrant(p.filesystem, s, d, rel, write)
            && (forall x | x in p.privatePaths :: !(Move(x, s, d) <= d + rel))
            && !([".praxis"] <= rel)
            && !(cs <= d + rel)
            && (write ==> !HasProtected(d + rel) && AvoidsSources(w, SourcePaths(p.sources), d + rel))
            && forall c | c in p.ceilings :: Carries(w, c, s, d, cs, rel, write)
  {
    SourcesOfTree(w, p, d + rel);
  }

  /** The child's decision at destination/rel, exactly. */
  lemma {:induction false} RelocationExact(w: World, p: Policy, s: Path, d: Path, cs: Path, rel: Path, write: bool)
    requires Lexical(w)
    ensures Allows(w, Relocate(w, p, s, d, cs), d + rel, write) <==> Carries(w, p, s, d, cs, rel, write)
    decreases p
  {
    var t := Translated(w, p, s, d, cs);
    forall i | 0 <= i < |p.ceilings|
      ensures Allows(w, t.ceilings[i], d + rel, write) <==> Carries(w, p.ceilings[i], s, d, cs, rel, write)
    {
      assert p.ceilings[i] in p.ceilings;
      RelocationExact(w, p.ceilings[i], s, d, cs, rel, write);
    }
    RelocationStep(w, p, s, d, cs, rel, write);
  }

  /** What one of the parent's nodes asks of destination/rel. */
  ghost predicate NodeCarries(w: World, n: Policy, s: Path, d: Path, rel: Path, write: bool) {
    && (write ==> n.profile != ReadOnly)
    && RulesGrant(w, MoveRules(n.filesystem, s, d), d + rel, write)
    && (forall x | x in n.privatePaths :: !(Move(x, s, d) <= d + rel))
    && (write ==> forall f | FileSource(f) in n.sources :: !w.under(d + rel, f) && !w.same(d + rel, f))
  }

  ghost predicate TreeCarries(w: World, p: Policy, s: Path, d: Path, rel: Path, write: bool) {
    forall n | Node(n, p) :: NodeCarries(w, n, s, d, rel, write)
  }

  /** The same, node by node: every node's moved rules, moved private paths and unmoved sources. */
  lemma RelocationMeans(w: World, p: Policy, s: Path, d: Path, cs: Path, rel: Path, write: bool)
    requires Lexical(w)
    ensures Allows(w, Relocate(w, p, s, d, cs), d + rel, write) <==>
            && (forall n | Node(n, p) :: NodeCarries(w, n, s, d, rel, write))
            && !([".praxis"] <= rel) && !(cs <= d + rel) && (write ==> NoMetadata(d + rel))
  {
    RelocationExact(w, p, s, d, cs, rel, write);
    CarriesMeans(w, p, s, d, cs, rel, write);
    assert TreeCarries(w, p, s, d, rel, write) <==> forall n | Node(n, p) :: NodeCarries(w, n, s, d, rel, write);
    MetadataMeans(d + rel);
  }

  lemma {:induction false} CarriesMeans(w: World, p: Policy, s: Path, d: Path, cs: Path, rel: Path, write: bool)
    requires PrefixWorld(w)
    ensures Carries(w, p, s, d, cs, rel, write) <==>
            && TreeCarries(w, p, s, d, rel, write)
            && !([".praxis"] <= rel) && !(cs <= d + rel) && (write ==> !HasProtected(d + rel))
    decreases p
  {
    CarriesByNode(w, p, s, d, cs, rel, write);
    LandedDecides(w, p.filesystem, s, d, rel, write);
    GrantedMeans(w, MoveRules(p.filesystem, s, d), d + rel, write);
    assert forall f :: f in SourcePaths(p.sources) <==> FileSource(f) in p.sources;
    forall c | c in p.ceilings
      ensures Carries(w, c, s, d, cs, rel, write) <==>
              && TreeCarries(w, c, s, d, rel, write)
              && !([".praxis"] <= rel) && !(cs <= d + rel) && (write ==> !HasProtected(d + rel))
    {
      CarriesMeans(w, c, s, d, cs, rel, write);
    }
    TreeCarriesByNode(w, p, s, d, rel, write);
  }

  lemma TreeCarriesByNode(w: World, p: Policy, s: Path, d: Path, rel: Path, write: bool)
    ensures TreeCarries(w, p, s, d, rel, write) <==>
            && NodeCarries(w, p, s, d, rel, write)
            && forall c | c in p.ceilings :: TreeCarries(w, c, s, d, rel, write)
  {
    assert Node(p, p);
    if TreeCarries(w, p, s, d, rel, write) {
      forall c, n | c in p.ceilings && Node(n, c) ensures NodeCarries(w, n, s, d, rel, write) {
        assert Node(n, p);
      }
    }
  }

  lemma RelocationStep(w: World, p: Policy, s: Path, d: Path, cs: Path, rel: Path, write: bool)
    requires Lexical(w)
    requires var t := Translated(w, p, s, d, cs); forall i | 0 <= i < |p.ceilings| ::
               Allows(w, t.ceilings[i], d + rel, write) <==> Carries(w, p.ceilings[i], s, d, cs, rel, write)
    ensures Allows(w, Relocate(w, p, s, d, cs), d + rel, write) <==> Carries(w, p, s, d, cs, rel, write)
  {
    ChildDecides(w, p, s, d, cs, rel, write);
    TranslatedDecides(w, p, s, d, cs, rel, write);
    CarriesByNode(w, p, s, d, cs, rel, write);
    if write && Carries(w, p, s, d, cs, rel, true) {
      LandedNotReadOnly(p, s, d, rel);
    }
  }

  /** The boundary in words. */
  lemma ChildDecides(w: World, p: Policy, s: Path, d: Path, cs: Path, rel: Path, write: bool)
    requires Lexical(w)
    ensures Allows(w, Relocate(w, p, s, d, cs), d + rel, write) <==>
            && Allows(w, Translated(w, p, s, d, cs), d + rel, write)
            && !(cs <= d + rel) && (write ==> !EffectiveReadOnly(p) && !HasProtected(d + rel))
  {
    var child := Relocate(w, p, s, d, cs);
    var t, boundary := Translated(w, p, s, d, cs), Boundary(w, d, EffectiveReadOnly(p), cs);
    RelocateIsMeet(w, p, s, d, cs);
    MeetAllows(w, child, t, boundary, d + rel, write);
    BoundaryDecides(w, d, EffectiveReadOnly(p), cs, rel, write);
  }

  lemma MeetAllows(w: World, r: Policy, p: Policy, q: Policy, path: Path, write: bool)
    requires IsMeet(w, r, p, q)
    ensures Allows(w, r, path, write) <==> Allows(w, p, path, write) && Allows(w, q, path, write)
  {
  }

  lemma TranslatedDecides(w: World, p: Policy, s: Path, d: Path, cs: Path, rel: Path, write: bool)
    requires Lexical(w)
    requires var t := Translated(w, p, s, d, cs); forall i | 0 <= i < |p.ceilings| ::
               Allows(w, t.ceilings[i], d + rel, write) <==> Carries(w, p.ceilings[i], s, d, cs, rel, write)
    ensures Allows(w, Translated(w, p, s, d, cs), d + rel, write) <==>
            && !(write && p.profile == ReadOnly)
            && LandedGrant(p.filesystem, s, d, rel, write)
            && (forall x | x in p.privatePaths :: !(Move(x, s, d) <= d + rel))
            && !([".praxis"] <= rel)
            && (write ==> !HasProtected(d + rel) && AvoidsSources(w, SourcePaths(p.sources), d + rel))
            && forall c | c in p.ceilings :: Carries(w, c, s, d, cs, rel, write)
  {
    NodeRelocates(w, p, s, d, cs, rel, write);
    CeilingsByIndex(w, p, s, d, cs, rel, write);
  }

  lemma CeilingsByIndex(w: World, p: Policy, s: Path, d: Path, cs: Path, rel: Path, write: bool)
    requires var t := Translated(w, p, s, d, cs); forall i | 0 <= i < |p.ceilings| ::
               Allows(w, t.ceilings[i], d + rel, write) <==> Carries(w, p.ceilings[i], s, d, cs, rel, write)
    ensures (forall c | c in Translated(w, p, s, d, cs).ceilings :: Allows(w, c, d + rel, write))
       <==> (forall c | c in p.ceilings :: Carries(w, c, s, d, cs, rel, write))
  {
    var t := Translated(w, p, s, d, cs);
    if forall c | c in t.ceilings :: Allows(w, c, d + rel, write) {
      forall c | c in p.ceilings ensures Carries(w, c, s, d, cs, rel, write) {
        var i :| 0 <= i < |p.ceilings| && p.ceilings[i] == c;
        assert t.ceilings[i] in t.ceilings;
      }
    }
    if forall c | c in p.ceilings :: Carries(w, c, s, d, cs, rel, write) {
      forall c | c in t.ceilings ensures Allows(w, c, d + rel, write) {
        var i :| 0 <= i < |t.ceilings| && t.ceilings[i] == c;
        assert p.ceilings[i] in p.ceilings;
      }
    }
  }

  lemma SourcesOfTree(w: World, p: Policy, path: Path)
    ensures AvoidsSources(w, Protected(p), path) <==>
            && AvoidsSources(w, SourcePaths(p.sources), path)
            && forall c | c in p.ceilings :: AvoidsSources(w, Protected(c), path)
  {
    if AvoidsSources(w, Protected(p), path) {
      forall c | c in p.ceilings ensures AvoidsSources(w, Protected(c), path) {
        assert Protected(c) <= Protected(p);
      }
    }
  }

  lemma {:induction false} LandedNotReadOnly(p: Policy, s: Path, d: Path, rel: Path)
    requires TreeLanded(p, s, d, rel, true)
    ensures !EffectiveReadOnly(p)
    decreases p
  {
    forall c | c in p.ceilings ensures !EffectiveReadOnly(c) {
      LandedNotReadOnly(c, s, d, rel);
    }
  }

  // ----- Narrowing

  lemma {:induction false} AllowsByTree(w: World, p: Policy, path: Path, write: bool)
    requires Lexical(w)
    ensures Allows(w, p, path, write) <==>
            && TreeGranted(w, p, path, write)
            && !TreePrivate(p, path)
            && (write ==> !HasProtected(path) && AvoidsSources(w, Protected(p), path))
    decreases p
  {
    LexicalCandidates(w, path);
    SourcesOfTree(w, p, path);
    forall c | c in p.ceilings
      ensures Allows(w, c, path, write) <==>
              && TreeGranted(w, c, path, write)
              && !TreePrivate(c, path)
              && (write ==> !HasProtected(path) && AvoidsSources(w, Protected(c), path))
    {
      AllowsByTree(w, c, path, write);
    }
    assert forall x :: x in PathSet(p.privatePaths) <==> x in p.privatePaths;
  }

  /** A private path over source/rel either moves along with it or sits strictly above the source. */
  lemma {:induction false} PrivateOverSource(p: Policy, s: Path, d: Path, rel: Path)
    ensures TreePrivate(p, s + rel) ==> MovedPrivate(p, s, d, d + rel) || PrivateAbove(p, s)
    ensures PrivateAbove(p, s) ==> TreePrivate(p, s + rel)
    decreases p
  {
    if x :| x in p.privatePaths && x <= s + rel {
      if |x| < |s| {
        PrefixesNest(x, s, s + rel);
      } else {
        PrefixesNest(s, x, s + rel);
        MovePrefix(x, s, d, rel);
      }
    }
    if x :| x in p.privatePaths && x < s {
      assert x <= s + rel;
    }
    forall c | c in p.ceilings
      ensures TreePrivate(c, s + rel) ==> MovedPrivate(c, s, d, d + rel) || PrivateAbove(c, s)
      ensures PrivateAbove(c, s) ==> TreePrivate(c, s + rel)
    {
      PrivateOverSource(c, s, d, rel);
    }
  }

  /**
   A read the child gets was the parent's exactly when no private path lies strictly above the
   source, and at every node a moved rule decides or the parent's own rules grant the read.
   */
  lemma RelocationNarrowsReads(w: World, p: Policy, s: Path, d: Path, cs: Path, rel: Path)
    requires Lexical(w)
    requires Allows(w, Relocate(w, p, s, d, cs), d + rel, false)
    ensures Allows(w, p, s + rel, false) <==> !PrivateAbove(p, s) && Justified(w, p, s, d, rel, false)
  {
    RelocationExact(w, p, s, d, cs, rel, false);
    LandedJustified(w, p, s, d, rel, false);
    AllowsByTree(w, p, s + rel, false);
    PrivateOverSource(p, s, d, rel);
  }

  /**
   A write the child gets was the parent's exactly when, besides, the source root names no
   metadata directory and the parent keeps no policy file at or above the path: sources do
   not move with the workspace.
   */
  lemma RelocationNarrowsWrites(w: World, p: Policy, s: Path, d: Path, cs: Path, rel: Path)
    requires Lexical(w)
    requires Allows(w, Relocate(w, p, s, d, cs), d + rel, true)
    ensures Allows(w, p, s + rel, true) <==>
            && !PrivateAbove(p, s) && Justified(w, p, s, d, rel, true)
            && !HasProtected(s) && forall f | f in Protected(p) :: !(f <= s + rel)
  {
    RelocationExact(w, p, s, d, cs, rel, true);
    LandedJustified(w, p, s, d, rel, true);
    AllowsByTree(w, p, s + rel, true);
    PrivateOverSource(p, s, d, rel);
    ProtectedSplits(s, rel);
    ProtectedSplits(d, rel);
    forall f | f in Protected(p) ensures (w.under(s + rel, f) || w.same(s + rel, f)) <==> f <= s + rel {
    }
  }

  /** For anchored policies private paths above the source are all there is to mind. */
  lemma AnchoredNarrowsReads(w: World, p: Policy, s: Path, d: Path, cs: Path, rel: Path)
    requires Lexical(w) && Anchored(p, s, d)
    requires Allows(w, Relocate(w, p, s, d, cs), d + rel, false)
    ensures Allows(w, p, s + rel, false) <==> !PrivateAbove(p, s)
  {
    AnchoredJustified(w, p, s, d, rel, false);
    RelocationNarrowsReads(w, p, s, d, cs, rel);
  }
}
