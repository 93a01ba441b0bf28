/**
 Compiling a policy tree to one flat rule list for a process sandbox: every boundary any
 node mentions, each with the access the whole tree gives at that very path.
 */
module Sandbox {
  import opened Paths
  import opened Permissions
  import opened Selection

  ghost function Boundaries(p: Policy): set<Path> {
    (set r | r in p.filesystem :: r.path) + SourcePaths(p.sources) + PathSet(p.privatePaths)
    + set c, b | c in p.ceilings && b in Boundaries(c) :: b
  }

  ghost function BoundaryAccess(w: World, p: Policy, b: Path): Access {
    if Allows(w, p, b, true) then Write else if Allows(w, p, b, false) then Read else Deny
  }

  ghost function SandboxRules(w: World, p: Policy): set<PathRule> {
    set b | b in Boundaries(p) :: PathRule(b, BoundaryAccess(w, p, b))
  }

  /** What a backend does with the list: most specific rule, and no writing of metadata components. */
  ghost predicate FlatAllows(w: World, rules: set<PathRule>, path: Path, write: bool) {
    Granted(w, rules, path, write) && (write ==> !HasProtected(path))
  }

  /** No boundary separates `b` from `c` below it. */
  ghost predicate SameRegion(boundaries: set<Path>, b: Path, c: Path) {
    b <= c && forall x | x in boundaries && x <= c :: x <= b
  }

  lemma SourcesTransfer(w: World, sources: set<Path>, b: Path, c: Path)
    requires Lexical(w) && SameRegion(sources, b, c)
    ensures AvoidsSources(w, sources, b) <==> AvoidsSources(w, sources, c)
  {
    forall s | s in sources
      ensures (!w.under(b, s) && !w.same(b, s)) <==> (!w.under(c, s) && !w.same(c, s))
    {
      assert w.under(b, s) <==> w.under(c, s);
    }
  }

  lemma NodeTransfers(w: World, p: Policy, b: Path, c: Path, write: bool)
    requires Lexical(w) && SameRegion(Boundaries(p), b, c)
    requires write ==> !HasProtected(c)
    ensures NodeAllows(w, p, b, write) <==> NodeAllows(w, p, c, write)
  {
    LexicalCandidates(w, b);
    LexicalCandidates(w, c);
    if HasProtected(b) { ProtectedBelow(b, c); }
    forall r | r in RuleSet(p.filesystem) && r.path <= c ensures r.path <= b {
      assert r.path in Boundaries(p);
    }
    SelectionTransfers(w, RuleSet(p.filesystem), b, c, write);
    assert SourcePaths(p.sources) <= Boundaries(p) && PathSet(p.privatePaths) <= Boundaries(p);
    SourcesTransfer(w, SourcePaths(p.sources), b, c);
    assert forall x | x in PathSet(p.privatePaths) :: w.under(b, x) <==> w.under(c, x);
  }

  lemma {:induction false} TreeTransfers(w: World, p: Policy, b: Path, c: Path, write: bool)
    requires Lexical(w) && SameRegion(Boundaries(p), b, c)
    requires write ==> !HasProtected(c)
    ensures Allows(w, p, b, write) <==> Allows(w, p, c, write)
    decreases p
  {
    NodeTransfers(w, p, b, c, write);
    forall x | x in p.ceilings ensures Allows(w, x, b, write) <==> Allows(w, x, c, write) {
      assert Boundaries(x) <= Boundaries(p);
      TreeTransfers(w, x, b, c, write);
    }
  }

  lemma {:induction false} WriteImpliesRead(w: World, p: Policy, path: Path)
    requires Allows(w, p, path, true)
    ensures Allows(w, p, path, false)
    decreases p
  {
    forall c | c in Candidates(w, path)
      ensures CandidateAllowed(w, RuleSet(p.filesystem), PathSet(p.privatePaths), c, false)
    {
      var r :| Selects(w, RuleSet(p.filesystem), c, r) && Permits(r.access, true);
      assert Permits(r.access, false);
    }
    forall x | x in p.ceilings ensures Allows(w, x, path, false) {
      WriteImpliesRead(w, x, path);
    }
  }

  lemma NoRuleNoAccess(w: World, p: Policy, path: Path, write: bool)
    requires Lexical(w) && forall b | b in Boundaries(p) :: !(b <= path)
    ensures !Allows(w, p, path, write)
  {
    LexicalCandidates(w, path);
    forall r | r in RuleSet(p.filesystem) ensures !w.under(path, r.path) {
      assert r.path in Boundaries(p);
    }
  }

  /** When every rule as specific as `top` has its access, `top` decides. */
  lemma GrantedByAccess(w: World, rules: set<PathRule>, path: Path, top: PathRule, write: bool)
    requires Selects(w, rules, path, top)
    requires forall r | r in rules && w.under(path, r.path) :: Outranks(r, top) ==> r.access == top.access
    ensures Granted(w, rules, path, write) <==> Permits(top.access, write)
  {
    forall r | Selects(w, rules, path, r) ensures r.access == top.access {
      assert Outranks(r, top);
    }
  }

  /** The flat list grants at `path` what it says at the deepest boundary above it. */
  lemma FlatSelects(w: World, p: Policy, b: Path, path: Path, write: bool)
    requires Lexical(w) && b in Boundaries(p) && SameRegion(Boundaries(p), b, path)
    ensures Granted(w, SandboxRules(w, p), path, write) <==> Permits(BoundaryAccess(w, p, b), write)
  {
    var rules, top := SandboxRules(w, p), PathRule(b, BoundaryAccess(w, p, b));
    forall r | r in rules && w.under(path, r.path)
      ensures Outranks(top, r) && (Outranks(r, top) ==> r.access == top.access)
    {
      assert r.path in Boundaries(p) && r.path <= b;
      if |r.path| == |b| {
        assert r.path == b;
      }
    }
    assert Selects(w, rules, path, top);
    GrantedByAccess(w, rules, path, top, write);
  }

  /** The compiled list decides every symlink-free path exactly as the whole tree of ceilings. */
  lemma SandboxExact(w: World, p: Policy, path: Path, write: bool)
    requires Lexical(w)
    ensures FlatAllows(w, SandboxRules(w, p), path, write) <==> Allows(w, p, path, write)
  {
    LexicalCandidates(w, path);
    if exists b :: b in Boundaries(p) && b <= path {
      var b := LongestPrefix(Boundaries(p), path);
      FlatSelects(w, p, b, path, write);
      if !(write && HasProtected(path)) {
        TreeTransfers(w, p, b, path, write);
        if Allows(w, p, b, true) { WriteImpliesRead(w, p, b); }
      }
    } else {
      NoRuleNoAccess(w, p, path, write);
      forall r | r in SandboxRules(w, p) ensures !w.under(path, r.path) {
        assert r.path in Boundaries(p);
      }
    }
  }
}
