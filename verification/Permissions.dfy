/**
 Resolved permission snapshots: a tree of ceilings, each node with its own path, tool and
 network rules, and the decisions read off the whole tree.

 The file system enters as a `World`: how a path resolves, which paths lie under which,
 and the wildcard matcher of tool names.
 */
module Permissions {
  import opened Paths

  datatype Access = Read | Write | Deny
  datatype Profile = WorkspaceProfile | ReadOnly | TrustedLocal
  datatype Approval = OnRequest | Never
  datatype Level = Unset | Allow | Ask | Forbid
  type Decision = d: Level | d != Unset witness Allow

  datatype PathRule = PathRule(path: Path, access: Access)
  datatype ToolRule = ToolRule(pattern: string, decision: Decision)
  datatype NetworkRule = NetworkRule(domain: string, decision: Decision)
  datatype NetworkPolicy = NetworkPolicy(
    decision: Decision,
    allowedDomains: seq<string>,
    deniedDomains: seq<string>,
    rules: seq<NetworkRule>)

  /** Where a policy came from: a file, or a label such as "default". */
  datatype Source = FileSource(path: Path) | LabelSource(name: string)

  datatype Policy = Policy(
    workspace: Path,
    profile: Profile,
    approval: Approval,
    filesystem: seq<PathRule>,
    tools: seq<ToolRule>,
    network: NetworkPolicy,
    sources: seq<Source>,
    privatePaths: seq<Path>,
    ceilings: seq<Policy>)

  datatype World = World(
    resolve: Path -> Option<Path>,
    under: (Path, Path) -> bool,
    same: (Path, Path) -> bool,
    matches: (string, string) -> bool)

  /** No symlinks and no aliases: a path resolves to itself and lies under its prefixes. */
  ghost predicate Lexical(w: World) {
    PrefixWorld(w)
    && (forall p :: w.resolve(p) == Some(p))
    && (forall a, b :: w.same(a, b) ==> a == b)
  }

  /** Symlinks are possible, but "under" is the component prefix. */
  ghost predicate PrefixWorld(w: World) {
    forall c, r :: w.under(c, r) <==> r <= c
  }

  // ----- Levels

  function Rank(d: Level): int {
    match d
    case Unset => -1
    case Allow => 0
    case Ask => 1
    case Forbid => 2
  }

  function Max(a: Level, b: Level): (m: Level)
    ensures Rank(m) >= Rank(a) && Rank(m) >= Rank(b) && (m == a || m == b)
  {
    if Rank(a) >= Rank(b) then a else b
  }

  predicate AtMost(d: Level, k: Level) { Rank(d) <= Rank(k) }

  lemma MaxByThresholds(x: Level, y: Level, z: Level)
    requires forall k :: AtMost(x, k) <==> AtMost(y, k) && AtMost(z, k)
    ensures x == Max(y, z)
  {
    assert AtMost(x, x) && AtMost(x, Max(y, z)) == (AtMost(y, Max(y, z)) && AtMost(z, Max(y, z)));
  }

  /** The maximum over a sequence, `start` for the empty one. */
  function MaxOf(start: Level, ds: seq<Level>): Level {
    if ds == [] then start else Max(ds[0], MaxOf(start, ds[1..]))
  }

  lemma {:induction false} MaxOfAtMost(start: Level, ds: seq<Level>, k: Level)
    ensures AtMost(MaxOf(start, ds), k) <==> AtMost(start, k) && forall d | d in ds :: AtMost(d, k)
  {
    if ds != [] {
      MaxOfAtMost(start, ds[1..], k);
      assert ds == [ds[0]] + ds[1..];
    }
  }

  // ----- Path decisions

  function AccessOrder(a: Access): int {
    match a
    case Read => 0
    case Write => 1
    case Deny => 2
  }

  /** Specificity first, then deny over write over read. */
  predicate Outranks(r: PathRule, other: PathRule) {
    |r.path| > |other.path|
    || (|r.path| == |other.path| && AccessOrder(r.access) >= AccessOrder(other.access))
  }

  predicate Permits(a: Access, write: bool) {
    a == Write || (a == Read && !write)
  }

  /** `r` is a rule that decides candidate `c`. */
  ghost predicate Selects(w: World, rules: set<PathRule>, c: Path, r: PathRule) {
    r in rules && w.under(c, r.path)
    && forall other | other in rules && w.under(c, other.path) :: Outranks(r, other)
  }

  /** The deciding rule of `c` exists and permits the access. */
  ghost predicate Granted(w: World, rules: set<PathRule>, c: Path, write: bool) {
    exists r :: Selects(w, rules, c, r) && Permits(r.access, write)
  }

  function RuleSet(rules: seq<PathRule>): set<PathRule> { set r | r in rules }

  function PathSet(paths: seq<Path>): set<Path> { set x | x in paths }

  ghost function SourcePaths(sources: seq<Source>): set<Path> {
    set s | s in sources && s.FileSource? :: s.path
  }

  /** What one candidate must satisfy at one node, sources aside. */
  ghost predicate CandidateAllowed(w: World, rules: set<PathRule>, private: set<Path>, c: Path, write: bool) {
    && (forall x | x in private :: !w.under(c, x))
    && (write ==> !HasProtected(c))
    && Granted(w, rules, c, write)
  }

  ghost predicate AvoidsSources(w: World, sources: set<Path>, c: Path) {
    forall s | s in sources :: !w.under(c, s) && !w.same(c, s)
  }

  /** The lexical path and its current real target. */
  function Candidates(w: World, path: Path): set<Path> {
    if w.resolve(path).Some? then {path, w.resolve(path).value} else {path}
  }

  /** One node of the tree allows the access, its ceilings aside. */
  ghost predicate NodeAllows(w: World, p: Policy, path: Path, write: bool) {
    && w.resolve(path).Some?
    && !(write && p.profile == ReadOnly)
    && forall c | c in Candidates(w, path) ::
         && CandidateAllowed(w, RuleSet(p.filesystem), PathSet(p.privatePaths), c, write)
         && (write ==> AvoidsSources(w, SourcePaths(p.sources), c))
  }

  /** The whole tree allows the access: the node and every ceiling. */
  ghost predicate Allows(w: World, p: Policy, path: Path, write: bool) {
    NodeAllows(w, p, path, write) && forall c | c in p.ceilings :: Allows(w, c, path, write)
  }

  // ----- Tool, network and approval decisions

  /** The maximum of a node decision over the tree. */
  ghost function TreeMax(own: Policy -> Level, p: Policy): Level
    decreases p, 1
  {
    Max(own(p), CeilingMax(own, p.ceilings))
  }

  ghost function CeilingMax(own: Policy -> Level, ceilings: seq<Policy>): Level
    decreases ceilings, 0
  {
    if ceilings == [] then Unset else Max(TreeMax(own, ceilings[0]), CeilingMax(own, ceilings[1..]))
  }

  function ToolLevels(w: World, tools: seq<ToolRule>, name: string): seq<Level> {
    if tools == [] then []
    else (if w.matches(name, tools[0].pattern) then [tools[0].decision] else []) + ToolLevels(w, tools[1..], name)
  }

  function OwnTool(w: World, name: string): Policy -> Level {
    (n: Policy) => MaxOf(Unset, ToolLevels(w, n.tools, name))
  }

  ghost function ToolDecision(w: World, p: Policy, name: string): Level {
    TreeMax(OwnTool(w, name), p)
  }

  datatype Url = Malformed | Url(scheme: string, host: string)

  predicate Routable(url: Url) {
    url.Url? && (url.scheme == "http" || url.scheme == "https") && url.host != []
  }

  predicate DomainMatches(host: string, pattern: string) {
    if "*." <= pattern then
      |host| >= |pattern| - 1 && host[|host| - (|pattern| - 1)..] == pattern[1..] && host != pattern[2..]
    else host == pattern
  }

  function DomainLevels(rules: seq<NetworkRule>, host: string): seq<Level> {
    if rules == [] then []
    else (if DomainMatches(host, rules[0].domain) then [rules[0].decision] else []) + DomainLevels(rules[1..], host)
  }

  predicate MatchesAny(host: string, domains: seq<string>) {
    exists d :: d in domains && DomainMatches(host, d)
  }

  function NodeNetwork(n: NetworkPolicy, url: Url): Level {
    if !Routable(url) then Forbid
    else if MatchesAny(url.host, n.deniedDomains) then Forbid
    else if n.allowedDomains != [] && !MatchesAny(url.host, n.allowedDomains) then Forbid
    else if n.decision != Forbid && DomainLevels(n.rules, url.host) != [] then
      MaxOf(Unset, DomainLevels(n.rules, url.host))
    else n.decision
  }

  function OwnNetwork(url: Url): Policy -> Level {
    (n: Policy) => NodeNetwork(n.network, url)
  }

  ghost function NetworkDecision(p: Policy, url: Url): Level {
    TreeMax(OwnNetwork(url), p)
  }

  function NodeCommandNetwork(n: NetworkPolicy): Level {
    if n.allowedDomains != [] || n.deniedDomains != [] || n.rules != [] then Forbid else n.decision
  }

  function OwnCommand(): Policy -> Level {
    (n: Policy) => NodeCommandNetwork(n.network)
  }

  ghost function CommandNetwork(p: Policy): Level {
    TreeMax(OwnCommand(), p)
  }

  predicate EffectiveNever(p: Policy) {
    p.approval == Never || exists c | c in p.ceilings :: EffectiveNever(c)
  }

  predicate EffectiveReadOnly(p: Policy) {
    p.profile == ReadOnly || exists c | c in p.ceilings :: EffectiveReadOnly(c)
  }
}
