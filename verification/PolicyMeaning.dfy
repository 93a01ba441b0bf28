/**
 What a policy tree means, said of its nodes one by one: of a path and its real target, of the
 rules that cover them, and of the tools, URLs and commands each node speaks about.
 */
module PolicyMeaning {
  import opened Paths
  import opened Permissions
  import opened Selection
  import opened Revisions

  /** A node of the tree: the root, or below one of its ceilings. */
  ghost predicate Node(n: Policy, p: Policy) {
    n == p || exists c :: c in p.ceilings && Node(n, c)
  }

  // ----- Paths

  /** A deepest covering rule, and no denial as deep. */
  ghost predicate Tops(w: World, rules: seq<PathRule>, c: Path, top: PathRule) {
    && top in rules && w.under(c, top.path)
    && forall o | o in rules && w.under(c, o.path) ::
         |o.path| < |top.path| || (|o.path| == |top.path| && o.access != Deny)
  }

  /** The deepest covering rules hold no denial, and for a write one of them is a write rule. */
  ghost predicate RulesGrant(w: World, rules: seq<PathRule>, c: Path, write: bool) {
    exists top :: Tops(w, rules, c, top) && (write ==> top.access == Write)
  }

  /** No component is a metadata name, whatever its case. */
  ghost predicate NoMetadata(c: Path) {
    forall i | 0 <= i < |c| :: CaseFold(c[i]) !in {".agents", ".aws", ".codex", ".git"}
  }

  /** What one node asks of the path or of its real target. */
  ghost predicate Admits(w: World, n: Policy, c: Path, write: bool) {
    && (forall x | x in n.privatePaths :: !w.under(c, x))
    && (write ==> n.profile != ReadOnly && NoMetadata(c))
    && (write ==> forall f | FileSource(f) in n.sources :: !w.under(c, f) && !w.same(c, f))
    && RulesGrant(w, n.filesystem, c, write)
  }

  lemma GrantedMeans(w: World, rules: seq<PathRule>, c: Path, write: bool)
    ensures Granted(w, RuleSet(rules), c, write) <==> RulesGrant(w, rules, c, write)
  {
    if r :| Selects(w, RuleSet(rules), c, r) && Permits(r.access, write) {
      SelectedTops(w, rules, c, r);
      assert write ==> r.access == Write;
    }
    if top :| Tops(w, rules, c, top) && (write ==> top.access == Write) {
      var s := SelectionExists(w, RuleSet(rules), c, top);
      TopsOutranked(w, rules, c, top, s);
      assert Permits(s.access, write);
    }
  }

  lemma SelectedTops(w: World, rules: seq<PathRule>, c: Path, r: PathRule)
    requires Selects(w, RuleSet(rules), c, r) && r.access != Deny
    ensures Tops(w, rules, c, r)
  {
    forall o | o in rules && w.under(c, o.path)
      ensures |o.path| < |r.path| || (|o.path| == |r.path| && o.access != Deny)
    {
      assert o in RuleSet(rules) && Outranks(r, o);
    }
  }

  lemma TopsOutranked(w: World, rules: seq<PathRule>, c: Path, top: PathRule, s: PathRule)
    requires Tops(w, rules, c, top) && Selects(w, RuleSet(rules), c, s)
    ensures s.access != Deny && (top.access == Write ==> s.access == Write)
  {
    assert Outranks(s, top);
  }

  lemma MetadataMeans(c: Path)
    ensures HasProtected(c) <==> !NoMetadata(c)
  {
    assert forall x :: x in PROTECTED <==> x in {".agents", ".aws", ".codex", ".git"};
  }

  lemma CandidateMeans(w: World, n: Policy, c: Path, write: bool)
    requires write ==> n.profile != ReadOnly
    ensures Admits(w, n, c, write) <==>
            && CandidateAllowed(w, RuleSet(n.filesystem), PathSet(n.privatePaths), c, write)
            && (write ==> AvoidsSources(w, SourcePaths(n.sources), c))
  {
    GrantedMeans(w, n.filesystem, c, write);
    MetadataMeans(c);
    assert forall x :: x in PathSet(n.privatePaths) <==> x in n.privatePaths;
    assert forall f :: f in SourcePaths(n.sources) <==> FileSource(f) in n.sources;
  }

  lemma CandidatesAre(w: World, path: Path)
    ensures forall c :: c in Candidates(w, path) <==> c == path || w.resolve(path) == Some(c)
  {
  }

  lemma NodeMeans(w: World, n: Policy, path: Path, write: bool)
    ensures NodeAllows(w, n, path, write) <==>
            w.resolve(path).Some? && Admits(w, n, path, write) && Admits(w, n, w.resolve(path).value, write)
  {
    if w.resolve(path).Some? && (write ==> n.profile != ReadOnly) {
      CandidateMeans(w, n, path, write);
      CandidateMeans(w, n, w.resolve(path).value, write);
    }
  }

  /** An access is allowed exactly when every node of the tree admits both the path and its real target. */
  lemma {:induction false} AllowsMeans(w: World, p: Policy, path: Path, write: bool)
    ensures Allows(w, p, path, write) <==>
            && w.resolve(path).Some?
            && forall n | Node(n, p) :: Admits(w, n, path, write) && Admits(w, n, w.resolve(path).value, write)
    decreases p
  {
    NodeMeans(w, p, path, write);
    forall c | c in p.ceilings
      ensures Allows(w, c, path, write) <==>
              && w.resolve(path).Some?
              && forall n | Node(n, c) :: Admits(w, n, path, write) && Admits(w, n, w.resolve(path).value, write)
    {
      AllowsMeans(w, c, path, write);
    }
    if Allows(w, p, path, write) {
      forall n | Node(n, p) ensures Admits(w, n, path, write) && Admits(w, n, w.resolve(path).value, write) {
        if n != p {
          var c :| c in p.ceilings && Node(n, c);
          assert Allows(w, c, path, write);
        }
      }
    }
  }

  /** Every node of the tree admits both. */
  ghost predicate Permitted(w: World, p: Policy, path: Path, write: bool) {
    && w.resolve(path).Some?
    && forall n | Node(n, p) :: Admits(w, n, path, write) && Admits(w, n, w.resolve(path).value, write)
  }

  lemma PermittedMeans(w: World, p: Policy, path: Path, write: bool)
    ensures Permitted(w, p, path, write) <==> Allows(w, p, path, write)
  {
    AllowsMeans(w, p, path, write);
  }

  // ----- Levels

  /** `top` is the strictest level there is: a denial before a question before a permission. */
  ghost predicate Strictest(top: Level, there: Level -> bool) {
    && (top == Forbid <==> there(Forbid))
    && (top == Ask <==> there(Ask) && !there(Forbid))
    && (top == Allow <==> there(Allow) && !there(Ask) && !there(Forbid))
  }

  lemma MaxMeans(a: Level, b: Level)
    ensures Strictest(Max(a, b), x => x == a || x == b)
    ensures Max(a, b) == Unset <==> a == Unset && b == Unset
  {
  }

  lemma {:induction false} MaxOfMeans(ds: seq<Level>)
    ensures Strictest(MaxOf(Unset, ds), x => x in ds)
  {
    if ds != [] {
      MaxOfMeans(ds[1..]);
      MaxMeans(ds[0], MaxOf(Unset, ds[1..]));
      assert ds == [ds[0]] + ds[1..];
    }
  }

  /** Some node of the tree, or of one of the trees, says so. */
  ghost predicate Said(says: (Policy, Level) -> bool, p: Policy, x: Level) {
    exists n :: Node(n, p) && says(n, x)
  }

  ghost predicate SaidAmong(says: (Policy, Level) -> bool, cs: seq<Policy>, x: Level) {
    exists c :: c in cs && Said(says, c, x)
  }

  ghost predicate SaysOwn(own: Policy -> Level, says: (Policy, Level) -> bool) {
    forall n :: Strictest(own(n), x => says(n, x))
  }

  lemma SaidByCeilings(says: (Policy, Level) -> bool, p: Policy, x: Level)
    ensures Said(says, p, x) <==> says(p, x) || SaidAmong(says, p.ceilings, x)
  {
    if n :| Node(n, p) && says(n, x) && n != p {
      var c :| c in p.ceilings && Node(n, c);
      assert Said(says, c, x);
    }
    if c :| c in p.ceilings && Said(says, c, x) {
      var n :| Node(n, c) && says(n, x);
      assert Node(n, p);
    }
    assert Node(p, p);
  }

  /** A tree decides the strictest level that any of its nodes says. */
  lemma {:induction false} TreeMeans(own: Policy -> Level, says: (Policy, Level) -> bool, p: Policy)
    requires SaysOwn(own, says)
    ensures Strictest(TreeMax(own, p), x => Said(says, p, x))
    decreases p, 1
  {
    CeilingMeans(own, says, p.ceilings);
    MaxMeans(own(p), CeilingMax(own, p.ceilings));
    assert Strictest(own(p), x => says(p, x));
    forall x ensures Said(says, p, x) <==> says(p, x) || SaidAmong(says, p.ceilings, x) {
      SaidByCeilings(says, p, x);
    }
  }

  lemma {:induction false} CeilingMeans(own: Policy -> Level, says: (Policy, Level) -> bool, cs: seq<Policy>)
    requires SaysOwn(own, says)
    ensures Strictest(CeilingMax(own, cs), x => SaidAmong(says, cs, x))
    decreases cs, 0
  {
    if cs != [] {
      TreeMeans(own, says, cs[0]);
      CeilingMeans(own, says, cs[1..]);
      MaxMeans(TreeMax(own, cs[0]), CeilingMax(own, cs[1..]));
      assert forall x :: SaidAmong(says, cs, x) <==> Said(says, cs[0], x) || SaidAmong(says, cs[1..], x);
    }
  }

  // ----- What nodes say

  ghost predicate ToolSays(w: World, n: Policy, name: string, x: Level) {
    exists r :: r in n.tools && w.matches(name, r.pattern) && r.decision == x
  }

  /** The pattern is the host, or "*." before a domain the host lies below. */
  ghost predicate Names(pattern: string, host: string) {
    if "*." <= pattern then exists front: string :: host == front + pattern[1..] else host == pattern
  }

  /** The URL is no web address, or the node's own decision or its domain lists refuse it. */
  ghost predicate Refuses(n: NetworkPolicy, url: Url) {
    || url.Malformed? || url.scheme !in {"http", "https"} || url.host == ""
    || n.decision == Forbid
    || (exists d :: d in n.deniedDomains && Names(d, url.host))
    || (n.allowedDomains != [] && forall d | d in n.allowedDomains :: !Names(d, url.host))
  }

  ghost predicate RuleSays(n: NetworkPolicy, host: string, x: Level) {
    exists r :: r in n.rules && Names(r.domain, host) && r.decision == x
  }

  /** A refusal; else what the rules that name the host say, and without any the node's own decision. */
  ghost predicate NetworkSays(n: NetworkPolicy, url: Url, x: Level) {
    if Refuses(n, url) then x == Forbid
    else if exists r :: r in n.rules && Names(r.domain, url.host) then RuleSays(n, url.host, x)
    else x == n.decision
  }

  /** Domains cannot be told apart for commands. */
  ghost predicate CommandSays(n: NetworkPolicy, x: Level) {
    x == if n.allowedDomains != [] || n.deniedDomains != [] || n.rules != [] then Forbid else n.decision
  }

  lemma NamesMeans(pattern: string, host: string)
    ensures DomainMatches(host, pattern) <==> Names(pattern, host)
  {
    if "*." <= pattern {
      var tail := pattern[1..];
      if front: string :| host == front + tail {
        assert host[|host| - |tail|..] == tail;
      }
      if DomainMatches(host, pattern) {
        assert host == host[..|host| - |tail|] + tail;
      }
    }
  }

  lemma ToolSaysOwn(w: World, n: Policy, name: string)
    ensures Strictest(OwnTool(w, name)(n), x => ToolSays(w, n, name, x))
  {
    var levels := ToolLevels(w, n.tools, name);
    MaxOfMeans(levels);
    forall x ensures x in levels <==> ToolSays(w, n, name, x) {
      ToolLevelsHold(w, n.tools, name, x);
    }
  }

  lemma RulesMean(n: NetworkPolicy, host: string)
    ensures Strictest(MaxOf(Unset, DomainLevels(n.rules, host)), x => RuleSays(n, host, x))
    ensures DomainLevels(n.rules, host) == [] <==> forall r | r in n.rules :: !Names(r.domain, host)
  {
    var levels := DomainLevels(n.rules, host);
    MaxOfMeans(levels);
    forall r | r in n.rules ensures Names(r.domain, host) <==> DomainMatches(host, r.domain) {
      NamesMeans(r.domain, host);
    }
    forall x ensures x in levels <==> RuleSays(n, host, x) {
      DomainLevelsHold(n.rules, host, x);
    }
    RuleAppliesByLevels(n.rules, host);
  }

  lemma NetworkSaysOwn(n: Policy, url: Url)
    ensures Strictest(OwnNetwork(url)(n), x => NetworkSays(n.network, url, x))
  {
    if url.Url? {
      RulesMean(n.network, url.host);
      forall d ensures DomainMatches(url.host, d) <==> Names(d, url.host) {
        NamesMeans(d, url.host);
      }
    }
  }

  // ----- What trees decide

  /** A tool is decided by the strictest rule that matches it anywhere in the tree. */
  lemma ToolMeans(w: World, p: Policy, name: string)
    ensures var says := (n: Policy, x: Level) => ToolSays(w, n, name, x);
            var d := ToolDecision(w, p, name);
            && (d == Forbid <==> Said(says, p, Forbid))
            && (d == Ask <==> Said(says, p, Ask) && !Said(says, p, Forbid))
            && (d == Allow <==> Said(says, p, Allow) && !Said(says, p, Ask) && !Said(says, p, Forbid))
  {
    var says := (n: Policy, x: Level) => ToolSays(w, n, name, x);
    forall n ensures Strictest(OwnTool(w, name)(n), x => says(n, x)) {
      ToolSaysOwn(w, n, name);
    }
    TreeMeans(OwnTool(w, name), says, p);
  }

  /** A URL is decided by the strictest of what the nodes say. */
  lemma NetworkMeans(p: Policy, url: Url)
    ensures var says := (n: Policy, x: Level) => NetworkSays(n.network, url, x);
            var d := NetworkDecision(p, url);
            && (d == Forbid <==> Said(says, p, Forbid))
            && (d == Ask <==> Said(says, p, Ask) && !Said(says, p, Forbid))
            && (d == Allow <==> Said(says, p, Allow) && !Said(says, p, Ask) && !Said(says, p, Forbid))
  {
    var says := (n: Policy, x: Level) => NetworkSays(n.network, url, x);
    forall n ensures Strictest(OwnNetwork(url)(n), x => says(n, x)) {
      NetworkSaysOwn(n, url);
    }
    TreeMeans(OwnNetwork(url), says, p);
  }

  /** And so are commands. */
  lemma CommandMeans(p: Policy)
    ensures var says := (n: Policy, x: Level) => CommandSays(n.network, x);
            var d := CommandNetwork(p);
            && (d == Forbid <==> Said(says, p, Forbid))
            && (d == Ask <==> Said(says, p, Ask) && !Said(says, p, Forbid))
            && (d == Allow <==> Said(says, p, Allow) && !Said(says, p, Ask) && !Said(says, p, Forbid))
  {
    var says := (n: Policy, x: Level) => CommandSays(n.network, x);
    forall n ensures Strictest(OwnCommand()(n), x => says(n, x)) {
    }
    TreeMeans(OwnCommand(), says, p);
  }

  lemma {:induction false} ApprovalMeans(p: Policy)
    ensures EffectiveNever(p) <==> exists n :: Node(n, p) && n.approval == Never
    ensures EffectiveReadOnly(p) <==> exists n :: Node(n, p) && n.profile == ReadOnly
    decreases p
  {
    forall c | c in p.ceilings
      ensures EffectiveNever(c) <==> exists n :: Node(n, c) && n.approval == Never
      ensures EffectiveReadOnly(c) <==> exists n :: Node(n, c) && n.profile == ReadOnly
    {
      ApprovalMeans(c);
    }
    if n :| Node(n, p) && n.approval == Never && n != p {
      var c :| c in p.ceilings && Node(n, c);
    }
    if n :| Node(n, p) && n.profile == ReadOnly && n != p {
      var c :| c in p.ceilings && Node(n, c);
    }
    assert Node(p, p);
  }
}
