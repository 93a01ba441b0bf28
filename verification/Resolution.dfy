/**
 Turning a declaration into a resolved policy: the workspace grant, the declared rules, and
 a guard at each metadata name of every granted directory.
 */
module Resolution {
  import opened Paths
  import opened Permissions
  import opened Selection
  import opened PolicyOps
  import opened PolicyMeaning

  /** A declared path, relative ones to be read against the workspace. */
  datatype DeclaredPath = AbsolutePath(parts: seq<string>) | RelativePath(parts: seq<string>)
  datatype DeclaredRule = DeclaredRule(path: DeclaredPath, access: Access)
  datatype Declaration = Declaration(
    profile: Profile,
    approval: Approval,
    filesystem: seq<DeclaredRule>,
    tools: seq<ToolRule>,
    network: NetworkPolicy)

  /** `os.path.abspath`: ".." removes the component before it, and stops at the root. */
  function Normalize(parts: seq<string>): Path {
    if parts == [] then []
    else
      var init, last := Normalize(parts[..|parts| - 1]), parts[|parts| - 1];
      if last == ".." then (if init == [] then [] else init[..|init| - 1])
      else if last == "." || last == "" then init
      else init + [last]
  }

  predicate PlainName(name: string) { name != ".." && name != "." && name != "" }

  /** What comes first can be normalised first. */
  lemma {:induction false} NormalizeAlike(a: seq<string>, b: seq<string>, rest: seq<string>)
    requires Normalize(a) == Normalize(b)
    ensures Normalize(a + rest) == Normalize(b + rest)
  {
    if rest == [] {
      assert a + rest == a && b + rest == b;
    } else {
      var init := rest[..|rest| - 1];
      assert (a + rest)[..|a + rest| - 1] == a + init && (b + rest)[..|b + rest| - 1] == b + init;
      NormalizeAlike(a, b, init);
    }
  }

  lemma NormalizeLast(parts: seq<string>, last: string)
    ensures Normalize(parts + [last]) ==
            if last == ".." then (if Normalize(parts) == [] then [] else Normalize(parts)[..|Normalize(parts)| - 1])
            else if last == "." || last == "" then Normalize(parts)
            else Normalize(parts) + [last]
  {
    assert (parts + [last])[..|parts|] == parts;
  }

  /** A path of plain names stands for itself. */
  lemma {:induction false} NormalizePlain(parts: seq<string>)
    requires forall name | name in parts :: PlainName(name)
    ensures Normalize(parts) == parts
  {
    if parts != [] {
      NormalizePlain(parts[..|parts| - 1]);
      assert PlainName(parts[|parts| - 1]);
      assert parts == parts[..|parts| - 1] + [parts[|parts| - 1]];
    }
  }

  /** "." and empty names do not count, ".." takes back the name before it, and stays at the root. */
  lemma NormalizeCancels(a: seq<string>, name: string, rest: seq<string>)
    ensures Normalize(a + ["."] + rest) == Normalize(a + rest) == Normalize(a + [""] + rest)
    ensures Normalize([".."] + rest) == Normalize(rest)
    ensures PlainName(name) ==> Normalize(a + [name] + [".."] + rest) == Normalize(a + rest)
  {
    NormalizeLast(a, ".");
    NormalizeLast(a, "");
    NormalizeAlike(a + ["."], a, rest);
    NormalizeAlike(a + [""], a, rest);
    NormalizeLast([], "..");
    assert [] + [".."] == [".."] && [] + rest == rest;
    NormalizeAlike([".."], [], rest);
    if PlainName(name) {
      NormalizeLast(a, name);
      NormalizeLast(a + [name], "..");
      NormalizeAlike(a + [name] + [".."], a, rest);
    }
  }

  function Locate(d: DeclaredPath, root: Path): Path {
    Normalize(if d.AbsolutePath? then d.parts else root + d.parts)
  }

  function DeclaredRules(rules: seq<DeclaredRule>, root: Path): seq<PathRule> {
    seq(|rules|, i requires 0 <= i < |rules| => PathRule(Locate(rules[i].path, root), rules[i].access))
  }

  function BaseRules(d: Declaration, root: Path): seq<PathRule> {
    [PathRule(root, if d.profile == ReadOnly then Read else Write)]
    + (if d.profile == TrustedLocal then [PathRule([], Read)] else [])
    + DeclaredRules(d.filesystem, root)
  }

  /** The workspace's own rule, the whole disk to read for a trusted profile, and the declared rules where they lie. */
  lemma BaseRulesAre(d: Declaration, root: Path, r: PathRule)
    ensures r in BaseRules(d, root) <==>
            || r == PathRule(root, if d.profile == ReadOnly then Read else Write)
            || (d.profile == TrustedLocal && r == PathRule([], Read))
            || exists declared :: declared in d.filesystem && r.access == declared.access
                 && r.path == Normalize((if declared.path.AbsolutePath? then [] else root) + declared.path.parts)
  {
    DeclaredRulesAre(d.filesystem, root, r);
  }

  lemma DeclaredRulesAre(rules: seq<DeclaredRule>, root: Path, r: PathRule)
    ensures r in DeclaredRules(rules, root) <==>
            exists declared :: declared in rules && r.access == declared.access
              && r.path == Normalize((if declared.path.AbsolutePath? then [] else root) + declared.path.parts)
  {
    var located := DeclaredRules(rules, root);
    assert forall declared: DeclaredRule :: [] + declared.path.parts == declared.path.parts;
    if declared :| declared in rules && r.access == declared.access
                   && r.path == Normalize((if declared.path.AbsolutePath? then [] else root) + declared.path.parts) {
      var i :| 0 <= i < |rules| && rules[i] == declared;
      assert located[i] == r;
    }
    if r in located {
      var i :| 0 <= i < |located| && located[i] == r;
      assert rules[i] in rules;
    }
  }

  /** The policy before its guards. */
  function BasePolicy(d: Declaration, root: Path): Policy {
    Policy(root, d.profile, d.approval, BaseRules(d, root), d.tools, d.network, [LabelSource("default")], [], [])
  }

  function Directories(rules: seq<PathRule>, root: Path): set<Path> {
    {root} + set r | r in rules && r.access != Deny :: r.path
  }

  // ----- Guards

  ghost function Guard(w: World, base: Policy, path: Path): PathRule {
    PathRule(path, if Allows(w, base, path, false) then Read else Deny)
  }

  ghost function GuardsAt(w: World, base: Policy, directory: Path): seq<PathRule> {
    seq(|PROTECTED|, i requires 0 <= i < |PROTECTED| => Guard(w, base, directory + [PROTECTED[i]]))
  }

  ghost function Guards(w: World, base: Policy, directories: seq<Path>): seq<PathRule> {
    if directories == [] then []
    else Guards(w, base, directories[..|directories| - 1]) + GuardsAt(w, base, directories[|directories| - 1])
  }

  ghost function Resolved(w: World, d: Declaration, root: Path, order: seq<Path>, commandState: Path): Policy {
    var base := BasePolicy(d, root);
    base.(filesystem := base.filesystem + Guards(w, base, order), privatePaths := [commandState])
  }

  lemma GuardsGrow(w: World, base: Policy, order: seq<Path>, directory: Path)
    ensures Guards(w, base, order + [directory]) == Guards(w, base, order) + GuardsAt(w, base, directory)
  {
    var next := order + [directory];
    assert next[..|next| - 1] == order;
  }

  method GuardDirectory(w: World, base: Policy, directory: Path) returns (guards: seq<PathRule>)
    ensures guards == GuardsAt(w, base, directory)
  {
    guards := [];
    for i := 0 to |PROTECTED|
      invariant guards == GuardsAt(w, base, directory)[..i]
    {
      var path := directory + [PROTECTED[i]];
      var reason := PathReason(w, base, path, false);
      guards := guards + [PathRule(path, if reason.Authorized? then Read else Deny)];
    }
  }

  /** Each directory once, in some order. */
  ghost predicate Enumerates(order: seq<Path>, directories: set<Path>) {
    (forall x :: x in order <==> x in directories) && |order| == |directories|
  }

  /** The loop over directories, each taken once; any order of them will do. */
  method GuardDirectories(w: World, base: Policy, directories: set<Path>) returns (guards: seq<PathRule>)
    ensures exists order :: Enumerates(order, directories) && guards == Guards(w, base, order)
  {
    var todo := directories;
    ghost var order := [];
    guards := [];
    while todo != {}
      invariant todo <= directories
      invariant forall x :: x in order <==> x in directories - todo
      invariant |order| + |todo| == |directories|
      invariant guards == Guards(w, base, order)
      decreases |todo|
    {
      var directory :| directory in todo;
      var more := GuardDirectory(w, base, directory);
      GuardsGrow(w, base, order, directory);
      guards := guards + more;
      todo := todo - {directory};
      order := order + [directory];
    }
  }

  method Resolve(w: World, d: Declaration, root: Path, commandState: Path) returns (p: Policy)
    ensures exists order :: Enumerates(order, Directories(BaseRules(d, root), root))
                            && p == Resolved(w, d, root, order, commandState)
    ensures p == Policy(root, d.profile, d.approval, p.filesystem, d.tools, d.network,
                        [LabelSource("default")], [commandState], [])
  {
    var base := BasePolicy(d, root);
    var guards := GuardDirectories(w, base, Directories(base.filesystem, root));
    p := base.(filesystem := base.filesystem + guards, privatePaths := [commandState]);
  }

  // ----- Guards change no decision

  /** A guard rule: at a metadata name, readable exactly where the base policy reads. */
  ghost predicate IsGuard(w: World, base: Policy, r: PathRule) {
    HasProtected(r.path) && r == Guard(w, base, r.path)
  }

  lemma {:induction false} GuardsAreGuards(w: World, base: Policy, directories: seq<Path>)
    ensures forall r | r in Guards(w, base, directories) :: IsGuard(w, base, r)
  {
    if directories != [] {
      var directory := directories[|directories| - 1];
      GuardsAreGuards(w, base, directories[..|directories| - 1]);
      forall i | 0 <= i < |PROTECTED| ensures IsGuard(w, base, GuardsAt(w, base, directory)[i]) {
        var path := directory + [PROTECTED[i]];
        ProtectedFoldsToItself(PROTECTED[i]);
        assert CaseFold(path[|directory|]) in PROTECTED;
      }
    }
  }

  /** At a candidate outside private directories, guards leave reading as it was. */
  lemma GuardsKeepReads(w: World, base: Policy, after: set<PathRule>, c: Path)
    requires Lexical(w) && base.ceilings == [] && RuleSet(base.filesystem) <= after
    requires forall r | r in after :: r in base.filesystem || IsGuard(w, base, r)
    requires forall x | x in base.privatePaths :: !(x <= c)
    ensures Granted(w, after, c, false) <==> Granted(w, RuleSet(base.filesystem), c, false)
  {
    var before := RuleSet(base.filesystem);
    if some :| some in after && w.under(c, some.path) {
      var s := SelectionExists(w, after, c, some);
      if s in before {
        OldRuleDecides(w, before, after, c, s, false);
      } else {
        var q := s.path;
        LexicalCandidates(w, q);
        SelectionDecides(w, after, c, s, false);
        forall r | r in before && r.path <= c ensures r.path <= q {
          assert w.under(c, r.path) && Outranks(s, r);
          PrefixesNest(r.path, q, c);
        }
        SelectionTransfers(w, before, q, c, false);
        assert forall x | x in PathSet(base.privatePaths) :: !w.under(q, x);
        assert Allows(w, base, q, false) <==> Granted(w, before, q, false);
      }
    }
  }

  /** No guard covers a candidate without a metadata component. */
  lemma GuardsKeepWrites(w: World, base: Policy, after: set<PathRule>, c: Path)
    requires Lexical(w) && RuleSet(base.filesystem) <= after && !HasProtected(c)
    requires forall r | r in after :: r in base.filesystem || IsGuard(w, base, r)
    ensures Granted(w, after, c, true) <==> Granted(w, RuleSet(base.filesystem), c, true)
  {
    var before := RuleSet(base.filesystem);
    forall r | r in after && w.under(c, r.path) ensures r in before {
      if r !in before {
        ProtectedBelow(r.path, c);
      }
    }
    assert forall r :: Selects(w, after, c, r) <==> Selects(w, before, c, r);
  }

  /** Guards, wherever they sit, neither take a read away nor add or remove a write. */
  lemma GuardsAreNeutral(w: World, base: Policy, rules: seq<PathRule>, path: Path, write: bool)
    requires Lexical(w) && base.ceilings == []
    requires forall r | r in rules :: IsGuard(w, base, r)
    ensures Allows(w, base.(filesystem := base.filesystem + rules), path, write) <==> Allows(w, base, path, write)
  {
    LexicalCandidates(w, path);
    var after := RuleSet(base.filesystem + rules);
    assert RuleSet(base.filesystem) <= after;
    assert forall x | x in base.privatePaths :: x in PathSet(base.privatePaths);
    if forall x | x in base.privatePaths :: !(x <= path) {
      if !write {
        GuardsKeepReads(w, base, after, path);
      } else if !HasProtected(path) {
        GuardsKeepWrites(w, base, after, path);
      }
    } else {
      var x :| x in base.privatePaths && x <= path;
      assert x in PathSet(base.privatePaths) && w.under(path, x);
    }
  }

  /** A resolved policy decides as its unguarded declaration, less the private command state. */
  lemma ResolvedDecides(w: World, d: Declaration, root: Path, order: seq<Path>, commandState: Path,
                        path: Path, write: bool)
    requires Lexical(w)
    ensures Allows(w, Resolved(w, d, root, order, commandState), path, write)
       <==> Allows(w, BasePolicy(d, root), path, write) && !(commandState <= path)
    ensures Allows(w, Resolved(w, d, root, order, commandState), path, write) <==>
            && RulesGrant(w, BaseRules(d, root), path, write)
            && (write ==> d.profile != ReadOnly && NoMetadata(path))
            && !(commandState <= path)
  {
    var base := BasePolicy(d, root);
    var p := Resolved(w, d, root, order, commandState);
    GuardsAreGuards(w, base, order);
    GuardsAreNeutral(w, base, Guards(w, base, order), path, write);
    LexicalCandidates(w, path);
    assert PathSet(p.privatePaths) == {commandState} by { assert p.privatePaths == [commandState]; }
    assert PathSet(base.privatePaths) == {};
    BaseDecides(w, d, root, path, write);
  }

  lemma BaseDecides(w: World, d: Declaration, root: Path, path: Path, write: bool)
    requires Lexical(w)
    ensures Allows(w, BasePolicy(d, root), path, write) <==>
            RulesGrant(w, BaseRules(d, root), path, write) && (write ==> d.profile != ReadOnly && NoMetadata(path))
  {
    var base := BasePolicy(d, root);
    NodeMeans(w, base, path, write);
    assert base.ceilings == [] && w.resolve(path) == Some(path);
  }

  /** At a metadata name of a directory opened: a rule to read where the declaration reads, else to deny. */
  ghost predicate GuardsOpen(w: World, base: Policy, open: PathRule, name: string, r: PathRule) {
    && open.access != Deny && name in {".agents", ".aws", ".codex", ".git"}
    && r == PathRule(open.path + [name], if Permitted(w, base, open.path + [name], false) then Read else Deny)
  }

  /** Such a guard at every metadata name of every directory the declaration opens, and nothing else, is added. */
  lemma ResolvedGuards(w: World, d: Declaration, root: Path, order: seq<Path>, commandState: Path, r: PathRule)
    requires Enumerates(order, Directories(BaseRules(d, root), root))
    ensures r in Resolved(w, d, root, order, commandState).filesystem <==>
            || r in BaseRules(d, root)
            || exists open, name :: open in BaseRules(d, root) && GuardsOpen(w, BasePolicy(d, root), open, name, r)
  {
    var base := BasePolicy(d, root);
    GuardsHold(w, base, order, r);
    if open, name :| open in BaseRules(d, root) && GuardsOpen(w, base, open, name, r) {
      OpenGuards(w, base, open, name, r);
      assert open.path in order && GuardsIn(w, base, open.path, r);
    }
    if directory :| directory in order && GuardsIn(w, base, directory, r) {
      var name :| name in PROTECTED && r == Guard(w, base, directory + [name]);
      var open := OpenedBy(d, root, directory);
      OpenGuards(w, base, open, name, r);
    }
  }

  lemma OpenedBy(d: Declaration, root: Path, directory: Path) returns (open: PathRule)
    requires directory in Directories(BaseRules(d, root), root)
    ensures open in BaseRules(d, root) && open.access != Deny && open.path == directory
  {
    open := PathRule(root, if d.profile == ReadOnly then Read else Write);
    BaseRulesAre(d, root, open);
    if directory != root {
      open :| open in BaseRules(d, root) && open.access != Deny && open.path == directory;
    }
  }

  lemma OpenGuards(w: World, base: Policy, open: PathRule, name: string, r: PathRule)
    requires open.access != Deny
    ensures GuardsOpen(w, base, open, name, r) <==> name in PROTECTED && r == Guard(w, base, open.path + [name])
  {
    PermittedMeans(w, base, open.path + [name], false);
    assert name in PROTECTED <==> name in {".agents", ".aws", ".codex", ".git"};
  }

  ghost predicate GuardsIn(w: World, base: Policy, directory: Path, r: PathRule) {
    exists name :: name in PROTECTED && r == Guard(w, base, directory + [name])
  }

  lemma {:induction false} GuardsHold(w: World, base: Policy, order: seq<Path>, r: PathRule)
    ensures r in Guards(w, base, order) <==> exists directory :: directory in order && GuardsIn(w, base, directory, r)
  {
    if order != [] {
      var init, last := order[..|order| - 1], order[|order| - 1];
      GuardsHold(w, base, init, r);
      GuardsAtHold(w, base, last, r);
      assert order == init + [last];
      assert forall directory :: directory in order <==> directory in init || directory == last;
    }
  }

  lemma GuardsAtHold(w: World, base: Policy, directory: Path, r: PathRule)
    ensures r in GuardsAt(w, base, directory) <==> GuardsIn(w, base, directory, r)
  {
    var guards := GuardsAt(w, base, directory);
    if r in guards {
      var i :| 0 <= i < |PROTECTED| && r == guards[i];
      assert PROTECTED[i] in PROTECTED;
    }
    if name :| name in PROTECTED && r == Guard(w, base, directory + [name]) {
      var i :| 0 <= i < |PROTECTED| && PROTECTED[i] == name;
      assert guards[i] == r;
    }
  }
}
