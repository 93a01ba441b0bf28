/**
 Committing the workspace on a delivery branch: one transaction over HEAD, the branch refs,
 the real index and its lock file. Every git command may fail, with its effect or without.
 */
module GitDelivery {
  import opened Paths
  import opened Decimals
  import opened Text

  /** The content of a tree: path to blob. */
  type Tree = map<string, string>

  /** A commit is its content: parent, tree and message. */
  datatype Commit = Initial(tree: Tree) | Child(parent: Commit, tree: Tree, message: string)

  datatype Head = OnBranch(name: string) | Detached(commit: Commit)

  /** How a command with an effect ends; a failure may come after the effect. */
  datatype Effect = Works | Fails(effective: bool)

  /** How a query ends: it answers, exits with a failure status, or raises. */
  datatype Probe = Answers | Silent | Raises

  /** What the real index, HEAD and the worktree were when a preview was taken. */
  datatype Identity = Identity(head: Commit, branch: string, tree: Tree, index: Option<Tree>)

  /** The fate of each step of one transaction. */
  datatype Plan = Plan(
    preflight: bool,          // repository checks before the lock
    preview: bool,            // candidate index and preview
    naming: Option<nat>,      // the generated-name probe that wrongly finds nothing
    taken: Probe,             // show-ref on the chosen branch
    create: Effect,           // branch
    attach: Effect,           // symbolic-ref to the new branch
    commit: Effect,
    hookTree: Option<Tree>,   // what a commit hook makes of the tree
    readCommit: bool,         // rev-parse HEAD
    readBranch: bool,         // rev-parse --abbrev-ref HEAD
    readTree: bool,           // rev-parse HEAD^{tree}
    revert: Effect,           // compare-and-swap back to the original head
    readBase: Probe,
    writeBase: Effect,
    writeLock: bool,          // candidate bytes into the lock file
    install: Effect,          // lock file over the index
    inspect: Probe,           // rev-parse of the branch after a failed commit
    reattach: Effect,         // HEAD back
    remove: Effect)           // update-ref -d of the created branch

  datatype Outcome =
    | Committed(commit: Commit, branch: string, created: bool)
    | NotCommitted
    | Partial

  datatype Request = Request(message: string, branch: Option<string>, expected: Option<Identity>, changed: nat)

  /** Another ref goes by the short name of a branch; `others` are the names that refs outside the branches have. */
  predicate Shadowed(name: string, branches: set<string>, others: set<string>) {
    name in others || exists x :: x in branches && (name == "heads/" + x || name == "refs/heads/" + x)
  }

  /** The shortest name of a branch that no other ref goes by. */
  function ShortName(name: string, branches: set<string>, others: set<string>): string {
    if !Shadowed(name, branches, others) then name
    else if "heads/" + name !in branches && "heads/" + name !in others then "heads/" + name
    else "refs/heads/" + name
  }

  /** HEAD and refs at one moment. */
  datatype Snapshot = Snapshot(head: Head, refs: map<string, Commit>) {
    /** What `rev-parse --abbrev-ref HEAD` prints. */
    function BranchName(others: set<string>): string {
      if head.OnBranch? then ShortName(head.name, refs.Keys, others) else "HEAD"
    }

    /** `rev-parse HEAD`, failing on an unborn branch. */
    function HeadCommit(): Option<Commit> {
      if head.Detached? then Some(head.commit)
      else if head.name in refs then Some(refs[head.name])
      else None
    }

    predicate Holds(name: string, commit: Commit) {
      name in refs && refs[name] == commit
    }

    /** HEAD is on a branch whose name another ref goes by as well. */
    predicate Misspelt(others: set<string>) {
      head.OnBranch? && Shadowed(head.name, refs.Keys, others)
    }
  }

  /** A transaction body either finishes, or breaks off before, during or after its commit. */
  datatype End = Finished(commit: Commit) | Broke(attempted: bool, committed: bool)

  /** A hook made another tree of the approved one. */
  predicate HookChanges(plan: Plan, worktree: Tree) {
    plan.hookTree.Some? && plan.hookTree.value != worktree
  }

  /** The branch, if one is to be created, exists and HEAD is on it. */
  predicate Begins(plan: Plan, created: bool) {
    created ==> plan.create.Works? && plan.attach.Works?
  }

  /** Everything the transaction does works; `recorded`: the pull-request base is written. */
  predicate Succeeds(plan: Plan, worktree: Tree, created: bool, recorded: bool) {
    && Begins(plan, created) && plan.commit.Works? && !HookChanges(plan, worktree)
    && plan.readCommit && plan.readBranch && plan.readTree
    && (recorded ==> plan.readBase != Raises && plan.writeBase.Works?)
    && plan.writeLock && plan.install.Works?
  }

  /** A changed tree is found and the commit taken back, where the branch allows it. */
  predicate TakesBack(plan: Plan, worktree: Tree) {
    plan.commit.Works? && HookChanges(plan, worktree)
    && plan.readCommit && plan.readBranch && plan.readTree && plan.revert.Works?
  }

  /** What the hook, if any, leaves of the tree. */
  function Candidate(plan: Plan, worktree: Tree): Tree {
    if plan.hookTree.Some? then plan.hookTree.value else worktree
  }

  /** One commit of `made` over `original`, onto `target`, from where HEAD and the refs were at the start. */
  datatype Job = Job(start: Snapshot, others: set<string>, target: string, original: Commit, made: Commit) {
    /** The name git gives for the branch HEAD is on. */
    function From(): string { start.BranchName(others) }

    predicate Created() { target != From() }

    predicate Creatable() { target !in start.refs && target != "HEAD" }

    ghost predicate Sound() {
      && "HEAD" !in start.refs && start.HeadCommit() == Some(original)
      && made.Child? && made.parent == original
    }

    /** Nothing is created, and the name given for the branch HEAD is on is not its name. */
    predicate Misnamed() { !Created() && start.head.OnBranch? && start.head.name != target }

    /** Index and configuration stay, unless the write of the one or the other had its effect. */
    ghost predicate Keeps(plan: Plan, index: Option<Tree>, index0: Option<Tree>, bases: map<string, string>,
                          bases0: map<string, string>) {
      && (index == index0 || (index == Some(made.tree) && plan.writeLock && plan.install == Fails(true)))
      && (bases == bases0
          || (bases == NextBases(bases0, From(), target, plan.readBase) && plan.writeBase != Fails(false)))
    }

    /** Only the delivery branch may move, and the one HEAD is on when git gives it another name. */
    ghost predicate Spares(refs: map<string, Commit>) {
      var moved := {target} + if Misnamed() then {start.head.name} else {};
      refs - moved == start.refs - moved
    }

    /** After the commit git names the delivery branch by its name. */
    predicate Named() { Created() ==> !Shadowed(target, start.refs.Keys, others) }

    /** With the delivery branch created and HEAD on it. */
    function Ready(): Snapshot {
      if Created() then Snapshot(OnBranch(target), start.refs[target := original]) else start
    }

    /** After the commit, which moves what HEAD names. */
    function Tip(): Snapshot {
      var ready := Ready();
      if ready.head.Detached? then Snapshot(Detached(made), ready.refs)
      else Snapshot(ready.head, ready.refs[ready.head.name := made])
    }

    /** What is there when nothing was committed, or the commit was taken back. */
    function Left(commit: Effect): Snapshot {
      match commit
      case Works => Tip().(refs := Tip().refs[target := original])
      case Fails(effective) => if effective then Tip() else Ready()
    }

    /** After the rollback: HEAD goes by the name that was given for its branch. */
    function RolledBack(commit: Effect): Snapshot {
      if Created() then Snapshot(if start.head.OnBranch? then OnBranch(From()) else start.head, start.refs - {target})
      else if Misnamed() then Left(commit)
      else start
    }

    /** HEAD and the refs are those of some step of the transaction or of its rollback. */
    ghost predicate Passes(commit: Effect, now: Snapshot) {
      && now.head in {start.head, Ready().head, Tip().head, RolledBack(commit).head}
      && now.refs in {start.refs, Ready().refs, Tip().refs, Left(commit).refs, start.refs - {target}}
    }

    /** The ref that is inspected after a failure is where it was. */
    predicate Unmoved(plan: Plan, worktree: Tree) {
      match plan.commit
      case Fails(false) => Created() || start.Holds(target, original)
      case Fails(true) => Misnamed() && start.Holds(target, original)
      case Works => TakesBack(plan, worktree) && Named()
                    && (Created() || (start.head.OnBranch? && (Misnamed() ==> start.Holds(target, made))))
    }

    /** The rollback says that it is complete. */
    predicate RollsBack(plan: Plan, worktree: Tree) {
      && (Created() ==> plan.reattach.Works? && plan.remove.Works?)
      && if Created() && !Creatable() then start.Holds(target, original)
         else if Begins(plan, Created()) then plan.inspect == Answers && Unmoved(plan, worktree)
         else plan.create != Fails(false)
    }

    /** The delivery succeeds. */
    predicate Delivers(plan: Plan, worktree: Tree) {
      && (Created() ==> Creatable()) && Named()
      && Succeeds(plan, worktree, Created(), Created() && start.head.OnBranch?)
    }
  }

  /** The pull-request base recorded for a newly created branch. */
  function NextBases(bases: map<string, string>, from: string, target: string, read: Probe)
    : map<string, string>
  {
    if target == from || from == "HEAD" then bases
    else bases[target := if read == Answers && from in bases then bases[from] else from]
  }

  const BRANCH_PREFIX := "praxis/"

  predicate BadBranch(name: string) {
    name == "" || name[0] == '-' || exists i :: 0 <= i < |name| && IsSpace(name[i])
  }

  function GeneratedName(stamp: string, suffix: nat): string {
    BRANCH_PREFIX + stamp + if suffix == 1 then "" else "-" + Numeral(suffix)
  }

  /** The `k`th generated name, all before it taken; it is taken itself only where the probe for it was silent. */
  ghost predicate FirstUnseen(branches: set<string>, stamp: string, silent: Option<nat>, k: nat, name: string) {
    && k >= 1 && name == "praxis/" + stamp + (if k == 1 then "" else "-" + Numeral(k))
    && (forall j | 1 <= j < k :: GeneratedName(stamp, j) in branches)
    && (name in branches ==> silent == Some(k))
  }

  lemma GeneratedNamesDiffer(stamp: string, a: nat, b: nat)
    requires 1 <= a < b
    ensures GeneratedName(stamp, a) != GeneratedName(stamp, b)
  {
    var prefix := BRANCH_PREFIX + stamp;
    assert |GeneratedName(stamp, b)| > |prefix|;
    if a == 1 {
      assert |GeneratedName(stamp, a)| == |prefix|;
    } else {
      assert GeneratedName(stamp, a)[|prefix| + 1..] == Numeral(a);
      assert GeneratedName(stamp, b)[|prefix| + 1..] == Numeral(b);
      NumeralValue(a);
      NumeralValue(b);
    }
  }

  lemma ShortNameIsName(name: string, branches: set<string>, others: set<string>)
    ensures ShortName(name, branches, others) == name <==> !Shadowed(name, branches, others)
    ensures name != "HEAD" ==> ShortName(name, branches, others) != "HEAD"
  {
    assert "HEAD"[0] == 'H';
    assert ("heads/" + name)[0] == 'h' && ("refs/heads/" + name)[0] == 'r';
  }

  /** A tag, a branch under "heads/", both; and a branch whose own name begins like a ref's. */
  lemma ShortNameExamples()
    ensures ShortName("main", {"main"}, {}) == "main" && ShortName("main", {"main"}, {"main"}) == "heads/main"
    ensures ShortName("main", {"main", "heads/main"}, {}) == "main"
    ensures ShortName("main", {"main", "heads/main"}, {"main"}) == "refs/heads/main"
    ensures ShortName("main", {"main"}, {"main", "heads/main"}) == "refs/heads/main"
    ensures ShortName("heads/main", {"main", "heads/main"}, {}) == "heads/heads/main"
    ensures ShortName("refs/heads/main", {"main", "refs/heads/main"}, {}) == "heads/refs/heads/main"
  {
    assert "heads/" + "main" == "heads/main" && "refs/heads/" + "main" == "refs/heads/main";
    assert "heads/" + "heads/main" == "heads/heads/main";
    assert "heads/" + "refs/heads/main" == "heads/refs/heads/main";
    assert |"main"| < |"heads/"|;
  }

  /** No branch shadows itself. */
  lemma ShadowedByOthers(name: string, branches: set<string>, others: set<string>)
    ensures Shadowed(name, branches + {name}, others) <==> Shadowed(name, branches, others)
  {
    assert name != "heads/" + name && name != "refs/heads/" + name by {
      assert |"heads/" + name| > |name| && |"refs/heads/" + name| > |name|;
    }
  }

  lemma FromIsHead(j: Job)
    requires j.Sound()
    ensures j.From() == "HEAD" <==> j.start.head.Detached?
  {
    if j.start.head.OnBranch? {
      ShortNameIsName(j.start.head.name, j.start.refs.Keys, j.others);
    }
  }

  /** After the commit git gives the target's name for the branch HEAD is on, unless another ref goes by it. */
  lemma TipNamed(j: Job)
    requires j.Sound() && (j.Created() ==> j.Creatable())
    ensures j.Tip().BranchName(j.others) == j.target <==> j.Named()
  {
    if j.Created() {
      assert j.Tip().refs.Keys == j.start.refs.Keys + {j.target};
      ShortNameIsName(j.target, j.start.refs.Keys + {j.target}, j.others);
      ShadowedByOthers(j.target, j.start.refs.Keys, j.others);
    } else {
      assert j.Tip().refs.Keys == j.start.refs.Keys;
    }
  }

  lemma MovesSpare(j: Job)
    requires j.Sound() && (j.Created() ==> j.Creatable())
    ensures j.Spares(j.Ready().refs) && j.Spares(j.Tip().refs)
  {
  }

  lemma StillSpares(j: Job, broken: map<string, Commit>, refs: map<string, Commit>)
    requires j.Spares(broken) && refs - {j.target} == broken - {j.target}
    ensures j.Spares(refs)
  {
    var more := if j.Misnamed() then {j.start.head.name} else {};
    assert refs - ({j.target} + more) == refs - {j.target} - more;
    assert broken - ({j.target} + more) == broken - {j.target} - more;
  }

  /** What a complete rollback leaves changed. */
  lemma RolledBackExactly(j: Job, commit: Effect)
    requires j.Sound()
    ensures j.RolledBack(commit).head == j.start.head <==> !(j.start.Misspelt(j.others) && j.Created())
    ensures j.RolledBack(commit).refs == j.start.refs <==>
            !(j.Created() && j.target in j.start.refs)
            && !(j.start.Misspelt(j.others) && !j.Created() && commit != Fails(false))
  {
    if j.start.head.OnBranch? {
      ShortNameIsName(j.start.head.name, j.start.refs.Keys, j.others);
    }
    if j.Misnamed() && commit != Fails(false) {
      assert j.Tip().refs[j.start.head.name] == j.made != j.original;
      assert j.Left(commit).refs[j.start.head.name] == j.made;
    }
  }

  const STEADY := Plan(true, true, None, Answers, Works, Works, Works, None, true, true, true, Works,
                       Answers, Works, true, Works, Answers, Works, Works)

  /** When every command works, a delivery onto a free branch that no other ref shadows succeeds. */
  lemma SteadyDelivers(j: Job, worktree: Tree)
    ensures !j.Created() || (j.Creatable() && !Shadowed(j.target, j.start.refs.Keys, j.others)) ==>
            j.Delivers(STEADY, worktree)
  {
  }

  lemma ReadyHolds(j: Job)
    requires j.Sound() && (j.Created() ==> j.Creatable())
    ensures j.Ready().HeadCommit() == Some(j.original) && "HEAD" !in j.Ready().refs
    ensures j.Ready().Holds(j.target, j.original) <==> j.Created() || j.start.Holds(j.target, j.original)
  {
  }

  lemma TipHolds(j: Job)
    requires j.Sound() && (j.Created() ==> j.Creatable())
    ensures j.Tip().HeadCommit() == Some(j.made) && "HEAD" !in j.Tip().refs
    ensures j.Tip().Holds(j.target, j.original) <==> j.Misnamed() && j.start.Holds(j.target, j.original)
    ensures j.Tip().Holds(j.target, j.made) <==>
            j.Created() || (j.start.head.OnBranch? && (j.Misnamed() ==> j.start.Holds(j.target, j.made)))
  {
  }

  /** Where the branch is named by its name, taking the commit back gives the refs from before the commit. */
  lemma TakenBack(j: Job, commit: Effect)
    requires j.Sound() && (j.Created() ==> j.Creatable()) && !j.Misnamed() && commit != Fails(true)
    requires j.Created() || j.start.head.OnBranch? || commit != Works
    ensures j.Left(commit) == j.Ready()
  {
    if commit.Works? {
      assert j.Tip().refs[j.target := j.original] == j.Ready().refs;
    }
  }

  /** From wherever the body broke off, a rollback that says it is complete leads to the same place. */
  lemma RecoveredIs(j: Job, end: End, plan: Plan, worktree: Tree, broken: Snapshot)
    requires j.Sound() && end.Broke? && !end.committed
    requires end.attempted == (Begins(plan, j.Created()) && (j.Created() ==> j.Creatable()))
    requires !end.attempted ==>
               j.Created() && (broken.refs == j.start.refs || (j.Creatable() && broken.refs == j.Ready().refs))
    requires end.attempted ==> broken == j.Left(plan.commit) && j.Unmoved(plan, worktree)
    ensures j.Created() ==> broken.refs - {j.target} == j.RolledBack(plan.commit).refs
    ensures !j.Created() ==> broken == j.RolledBack(plan.commit)
  {
    if end.attempted && !j.Misnamed() {
      TakenBack(j, plan.commit);
    }
    if j.Created() {
      assert j.start.refs[j.target := j.original] - {j.target} == j.start.refs - {j.target};
    }
  }

  /** The handler's steps. */
  lemma PassesOn(j: Job, commit: Effect, broken: Snapshot, now: Snapshot)
    requires j.Sound() && j.Passes(commit, broken)
    requires now.head == broken.head || (j.Created() && now.head == j.RolledBack(commit).head)
    requires now.refs == broken.refs || (j.Created() && now.refs == broken.refs - {j.target})
    ensures j.Passes(commit, now)
  {
    if j.Created() {
      assert j.start.refs[j.target := j.original] - {j.target} == j.start.refs - {j.target};
      assert j.start.refs[j.target := j.original][j.target := j.made] - {j.target} == j.start.refs - {j.target};
      assert j.start.refs[j.target := j.original][j.target := j.made][j.target := j.original] - {j.target}
          == j.start.refs - {j.target};
      assert j.start.refs - {j.target} - {j.target} == j.start.refs - {j.target};
    }
  }

  class Repository {
    var head: Head
    var refs: map<string, Commit>
    var index: Option<Tree>
    var locked: bool
    var bases: map<string, string>
    const worktree: Tree
    /** The names that tags and other refs outside the branches have. */
    const others: set<string>

    constructor (head: Head, refs: map<string, Commit>, others: set<string>, index: Option<Tree>, worktree: Tree)
      ensures this.head == head && this.refs == refs && this.others == others
      ensures this.index == index && this.worktree == worktree && !locked && bases == map[]
    {
      this.head, this.refs, this.others, this.index, this.worktree := head, refs, others, index, worktree;
      locked, bases := false, map[];
    }

    ghost predicate Valid()
      reads this`refs
    {
      "HEAD" !in refs
    }

    function Now(): Snapshot
      reads this`head, this`refs
    {
      Snapshot(head, refs)
    }

    /** `rev-parse --abbrev-ref HEAD`. */
    function BranchName(): string
      reads this`head, this`refs
    {
      Now().BranchName(others)
    }

    /** `rev-parse HEAD`. */
    function HeadCommit(): Option<Commit>
      reads this`head, this`refs
    {
      Now().HeadCommit()
    }

    /** `git branch name commit`: refused for an existing name and for "HEAD". */
    method CreateBranch(name: string, commit: Commit, e: Effect) returns (ok: bool)
      requires Valid()
      modifies this`refs
      ensures Valid()
      ensures ok <==> e.Works? && name !in old(refs) && name != "HEAD"
      ensures refs == if name !in old(refs) && name != "HEAD" && e != Fails(false)
                      then old(refs)[name := commit] else old(refs)
    {
      ok := false;
      if name !in refs && name != "HEAD" {
        if e.Works? || e.effective {
          refs := refs[name := commit];
        }
        ok := e.Works?;
      }
    }

    method SetHead(h: Head, e: Effect) returns (ok: bool)
      modifies this`head
      ensures ok <==> e.Works?
      ensures head == if e != Fails(false) then h else old(head)
    {
      if e.Works? || e.effective {
        head := h;
      }
      ok := e.Works?;
    }

    /** `git commit` with the candidate index on whatever HEAD names. */
    method CommitCandidate(candidate: Tree, message: string, e: Effect) returns (ok: bool)
      requires Valid() && HeadCommit().Some?
      modifies this`refs, this`head
      ensures Valid()
      ensures ok <==> e.Works?
      ensures old(head).OnBranch? ==> head == old(head)
      ensures var made := Child(old(HeadCommit()).value, candidate, message);
              if e.Works? || e.effective then
                if old(head).OnBranch? then refs == old(refs)[old(head).name := made]
                else refs == old(refs) && head == Detached(made)
              else refs == old(refs) && head == old(head)
    {
      var made := Child(HeadCommit().value, candidate, message);
      if e.Works? || e.effective {
        if head.OnBranch? {
          refs := refs[head.name := made];
        } else {
          head := Detached(made);
        }
      }
      ok := e.Works?;
    }

    /** `update-ref name new old`. */
    method SwapRef(name: string, new_: Commit, expected: Commit, e: Effect) returns (ok: bool)
      requires Valid()
      modifies this`refs
      ensures Valid()
      ensures ok <==> e.Works? && name in old(refs) && old(refs)[name] == expected
      ensures refs == if name in old(refs) && old(refs)[name] == expected && e != Fails(false)
                      then old(refs)[name := new_] else old(refs)
    {
      ok := false;
      if name in refs && refs[name] == expected {
        if e.Works? || e.effective {
          refs := refs[name := new_];
        }
        ok := e.Works?;
      }
    }

    /** `update-ref -d name old`. */
    method DeleteRef(name: string, expected: Commit, e: Effect) returns (ok: bool)
      requires Valid()
      modifies this`refs
      ensures Valid()
      ensures ok <==> e.Works? && name in old(refs) && old(refs)[name] == expected
      ensures refs == if name in old(refs) && old(refs)[name] == expected && e != Fails(false)
                      then old(refs) - {name} else old(refs)
    {
      ok := false;
      if name in refs && refs[name] == expected {
        if e.Works? || e.effective {
          refs := refs - {name};
        }
        ok := e.Works?;
      }
    }

    /** The first generated name no probe finds; a silent probe ends the search early. */
    method FreeName(stamp: string, silent: Option<nat>) returns (name: string)
      ensures exists k :: FirstUnseen(refs.Keys, stamp, silent, k, name)
    {
      var suffix := 1;
      name := GeneratedName(stamp, 1);
      ghost var left := refs.Keys;
      while name in refs && silent != Some(suffix)
        invariant suffix >= 1 && name == GeneratedName(stamp, suffix)
        invariant left <= refs.Keys
        invariant forall x | x in refs && x !in left :: exists k :: 1 <= k < suffix && x == GeneratedName(stamp, k)
        invariant forall k | 1 <= k < suffix :: GeneratedName(stamp, k) in refs
        decreases left
      {
        assert name in left by {
          if name !in left {
            var k :| 1 <= k < suffix && name == GeneratedName(stamp, k);
            GeneratedNamesDiffer(stamp, k, suffix);
          }
        }
        left := left - {name};
        suffix := suffix + 1;
        name := GeneratedName(stamp, suffix);
      }
      assert FirstUnseen(refs.Keys, stamp, silent, suffix, name);
    }

    // ----- One transaction

    function CurrentIdentity(): Option<Identity>
      reads this
    {
      if HeadCommit().None? then None
      else Some(Identity(HeadCommit().value, BranchName(), worktree, index))
    }

    /** The caller's request passes every check made before the branch is chosen. */
    predicate Acceptable(r: Request, plan: Plan)
      reads this
    {
      && !Spaces(r.message)
      && (r.branch.Some? ==> !BadBranch(r.branch.value))
      && plan.preflight
      && !locked
      && plan.preview
      && HeadCommit().Some?
      && (r.expected.Some? ==>
            r.expected.value == Identity(HeadCommit().value, BranchName(), worktree, index))
      && r.changed > 0
    }

    /** The chosen branch is free as far as git says. */
    predicate Free(target: string, plan: Plan)
      reads this
    {
      target == BranchName() || plan.taken == Silent || (plan.taken == Answers && target !in refs)
    }

    /** The commit that a delivery onto `target` is about. */
    ghost function JobOf(target: string, message: string, plan: Plan): Job
      reads this
      requires HeadCommit().Some?
    {
      var original := HeadCommit().value;
      Job(Now(), others, target, original, Child(original, Candidate(plan, worktree), message))
    }

    /**
     How a delivery ends, and what HEAD, refs, index and configuration then are. Committed: HEAD is at a
     child of the old commit with the previewed tree. Not committed: the index and the configuration are as
     they were, and exactly when HEAD and the refs are.
     */
    ghost predicate Concludes(j: Job, plan: Plan, outcome: Outcome, index0: Option<Tree>, bases0: map<string, string>)
      reads this
    {
      && j.Spares(refs)
      && (outcome.Committed? <==> j.Delivers(plan, worktree))
      && (outcome == NotCommitted <==> !j.Delivers(plan, worktree) && j.RollsBack(plan, worktree))
      && (outcome.Committed? ==>
            && outcome == Committed(j.made, j.target, j.target != j.From())
            && j.made.Child? && j.made.parent == j.original && j.made.tree == worktree
            && Now() == j.Tip() && HeadCommit() == Some(j.made) && index == Some(worktree)
            && bases == NextBases(bases0, j.From(), j.target, plan.readBase))
      && (outcome == Partial ==>
            j.Passes(plan.commit, Now()) && j.Keeps(plan, index, index0, bases, bases0))
      && (outcome == NotCommitted ==>
            && Now() == j.RolledBack(plan.commit) && index == index0 && bases == bases0
            && (head == j.start.head <==> !(j.start.Misspelt(others) && j.target != j.From()))
            && (refs == j.start.refs <==>
                !(j.target in j.start.refs && j.target != j.From())
                && !(j.start.Misspelt(others) && j.target == j.From() && plan.commit != Fails(false))))
    }

    /** The body of the transaction, up to its first failure. */
    method Transact(ghost j: Job, from: string, original: Commit, target: string, message: string, plan: Plan)
      returns (end: End)
      requires Valid() && HeadCommit() == Some(original) && BranchName() == from
      requires j == JobOf(target, message, plan) && locked
      modifies this`head, this`refs, this`index, this`locked, this`bases
      ensures Valid() && j.Spares(refs)
      ensures end.Finished? <==> j.Delivers(plan, worktree)
      ensures end.Finished? ==>
              && Now() == j.Tip() && end.commit == j.made && index == Some(worktree) && !locked
              && bases == NextBases(old(bases), from, target, plan.readBase)
      ensures end.Broke? && !end.committed ==> index == old(index) && locked == old(locked) && bases == old(bases)
      ensures end.Broke? ==> end.attempted == (Begins(plan, j.Created()) && (j.Created() ==> j.Creatable()))
      ensures end.Broke? && !end.attempted ==>
              && !end.committed && j.Created()
              && (refs == j.start.refs || (j.Creatable() && refs == j.Ready().refs))
              && (Now().Holds(target, original) <==>
                  if j.Creatable() then plan.create != Fails(false) else j.start.Holds(target, original))
      ensures end.Broke? && end.attempted && !end.committed ==> Now() == j.Left(plan.commit)
      ensures end.Broke? ==> j.Passes(plan.commit, Now())
      ensures end.Broke? ==> j.Keeps(plan, index, old(index), bases, old(bases))
      ensures end.Broke? && end.attempted ==>
              (!end.committed && Now().Holds(target, original) <==> j.Unmoved(plan, worktree))
    {
      var created := target != from;
      if created {
        var made := CreateBranch(target, original, plan.create);
        if !made {
          return Broke(false, false);
        }
        var attached := SetHead(OnBranch(target), plan.attach);
        if !attached {
          return Broke(false, false);
        }
      }
      end := CommitAndInstall(j, from, original, target, message, plan);
    }

    method CommitAndInstall(ghost j: Job, from: string, original: Commit, target: string, message: string, plan: Plan)
      returns (end: End)
      requires Valid() && j.Sound() && (j.Created() ==> j.Creatable()) && Now() == j.Ready()
      requires from == j.From() && original == j.original && target == j.target && others == j.others
      requires j.made == Child(original, Candidate(plan, worktree), message)
      modifies this`head, this`refs, this`index, this`locked, this`bases
      ensures Valid() && j.Spares(refs)
      ensures end.Finished? <==> j.Named() && Succeeds(plan, worktree, false, j.Created() && j.start.head.OnBranch?)
      ensures end.Finished? ==>
              && Now() == j.Tip() && end.commit == j.made && index == Some(worktree) && !locked
              && bases == NextBases(old(bases), from, target, plan.readBase)
      ensures end.Broke? ==> end.attempted
      ensures end.Broke? && !end.committed ==> index == old(index) && locked == old(locked) && bases == old(bases)
      ensures end.Broke? && !end.committed ==> Now() == j.Left(plan.commit)
      ensures end.Broke? ==> j.Passes(plan.commit, Now())
      ensures end.Broke? ==> j.Keeps(plan, index, old(index), bases, old(bases))
      ensures end.Broke? ==> (!end.committed && Now().Holds(target, original) <==> j.Unmoved(plan, worktree))
    {
      ReadyHolds(j);
      TipHolds(j);
      MovesSpare(j);
      var done := CommitCandidate(Candidate(plan, worktree), message, plan.commit);
      if !done {
        return Broke(true, false);
      }
      end := InspectAndInstall(j, from, original, target, plan);
    }

    /** After `git commit` said it worked: what it made, checked, recorded and installed, or taken back. */
    method InspectAndInstall(ghost j: Job, from: string, original: Commit, target: string, plan: Plan)
      returns (end: End)
      requires Valid() && j.Sound() && (j.Created() ==> j.Creatable()) && Now() == j.Tip()
      requires from == j.From() && original == j.original && target == j.target && others == j.others
      requires j.made.tree == Candidate(plan, worktree) && plan.commit.Works?
      modifies this`refs, this`index, this`locked, this`bases
      ensures Valid() && j.Spares(refs)
      ensures end.Finished? <==> j.Named() && Succeeds(plan, worktree, false, j.Created() && j.start.head.OnBranch?)
      ensures end.Finished? ==>
              && Now() == j.Tip() && end.commit == j.made && index == Some(worktree) && !locked
              && bases == NextBases(old(bases), from, target, plan.readBase)
      ensures end.Broke? ==> end.attempted && (!end.committed <==> j.Unmoved(plan, worktree))
      ensures end.Broke? && !end.committed ==> index == old(index) && locked == old(locked) && bases == old(bases)
      ensures end.Broke? && !end.committed ==> Now() == j.Left(Works) && Now().Holds(target, original)
      ensures end.Broke? ==> j.Passes(plan.commit, Now())
      ensures end.Broke? ==> j.Keeps(plan, index, old(index), bases, old(bases))
    {
      TipHolds(j);
      MovesSpare(j);
      TipNamed(j);
      FromIsHead(j);
      if !plan.readCommit || !plan.readBranch {
        return Broke(true, true);
      }
      var commit := HeadCommit().value;
      if BranchName() != target {
        return Broke(true, true);
      }
      if !plan.readTree {
        return Broke(true, true);
      }
      if commit.tree != worktree {
        var reverted := SwapRef(target, original, commit, plan.revert);
        return Broke(true, !reverted);
      }
      var installed := RecordAndInstall(from, target, commit.tree, plan);
      end := if installed then Finished(commit) else Broke(true, true);
    }

    /** The pull-request base, then the candidate bytes through the lock file over the index. */
    method RecordAndInstall(from: string, target: string, candidate: Tree, plan: Plan) returns (installed: bool)
      modifies this`index, this`locked, this`bases
      ensures installed ==> index == Some(candidate) && !locked
      ensures installed ==> bases == NextBases(old(bases), from, target, plan.readBase)
      ensures installed <==>
              && (target != from && from != "HEAD" ==> plan.readBase != Raises && plan.writeBase.Works?)
              && plan.writeLock && plan.install.Works?
      ensures !installed ==>
              index == old(index) || (index == Some(candidate) && plan.writeLock && plan.install == Fails(true))
      ensures !installed ==>
              || bases == old(bases)
              || (bases == NextBases(old(bases), from, target, plan.readBase) && plan.writeBase != Fails(false))
    {
      installed := false;
      if target != from && from != "HEAD" {
        if plan.readBase == Raises {
          return;
        }
        var base := if plan.readBase == Answers && from in bases then bases[from] else from;
        if plan.writeBase.Works? || plan.writeBase.effective {
          bases := bases[target := base];
        }
        if !plan.writeBase.Works? {
          return;
        }
      }
      if !plan.writeLock {
        return;
      }
      if plan.install.Works? || plan.install.effective {
        index, locked := Some(candidate), false;
      }
      installed := plan.install.Works?;
    }

    /** What the failure handler makes of a broken transaction; `from` is what git called the branch HEAD was on. */
    method Recover(from: string, original: Commit, target: string, end: End, plan: Plan) returns (outcome: Outcome)
      requires Valid() && end.Broke?
      modifies this`head, this`refs
      ensures Valid() && refs - {target} == old(refs) - {target}
      ensures outcome == NotCommitted || outcome == Partial
      ensures head == old(head) || head == if from == "HEAD" then Detached(original) else OnBranch(from)
      ensures refs == old(refs) || (refs == old(refs) - {target} && old(Now().Holds(target, original)))
      ensures (head != old(head) || refs != old(refs)) ==> target != from && !end.committed
      ensures outcome == NotCommitted <==>
              && !end.committed
              && (end.attempted ==> plan.inspect == Answers && old(Now().Holds(target, original)))
              && (target != from ==> plan.reattach.Works? && plan.remove.Works? && old(Now().Holds(target, original)))
      ensures outcome == NotCommitted && target == from ==> Now() == old(Now())
      ensures outcome == NotCommitted && target != from ==>
              && refs == old(refs) - {target}
              && head == if from == "HEAD" then Detached(original) else OnBranch(from)
    {
      if end.committed {
        return Partial;
      }
      if end.attempted && (plan.inspect != Answers || target !in refs || refs[target] != original) {
        return Partial;
      }
      if target != from {
        var back := SetHead(if from == "HEAD" then Detached(original) else OnBranch(from), plan.reattach);
        if !back {
          return Partial;
        }
        var removed := DeleteRef(target, original, plan.remove);
        if !removed {
          return Partial;
        }
      }
      outcome := NotCommitted;
    }

    /**
     The whole delivery. A `NotCommitted` outcome leaves index and configuration as they were, and
     HEAD and the refs too, but for three cases. A branch that existed while the probe for it stayed
     silent, and that pointed at HEAD's commit, is deleted by the rollback. Where another ref goes by
     the name of the branch HEAD was on, git calls that branch by a longer name: the rollback of a
     created branch then leaves HEAD on a branch of the longer name, and a commit onto the longer name
     is overlooked when a branch has it.
     */
    method Deliver(r: Request, stamp: string, plan: Plan) returns (outcome: Outcome, ghost target: string)
      requires Valid()
      modifies this`head, this`refs, this`index, this`locked, this`bases
      ensures Valid() && locked == old(locked)
      ensures r.branch.Some? ==> target == r.branch.value
      ensures old(Acceptable(r, plan)) && r.branch.None? ==>
              if "praxis/" <= old(BranchName()) then target == old(BranchName())
              else exists k :: FirstUnseen(old(refs).Keys, stamp, plan.naming, k, target)
      ensures outcome != NotCommitted ==>
              && (exists i :: 0 <= i < |r.message| && !IsSpace(r.message[i]))
              && r.changed > 0 && !old(locked) && plan.preflight && plan.preview && old(HeadCommit()).Some?
              && (r.expected.Some? ==>
                    r.expected.value == Identity(old(HeadCommit()).value, old(BranchName()), worktree, old(index)))
              && (r.branch.Some? ==> r.branch.value != "" && r.branch.value[0] != '-'
                                     && forall i | 0 <= i < |r.branch.value| :: !IsSpace(r.branch.value[i]))
              && (target == old(BranchName()) || plan.taken == Silent
                  || (plan.taken == Answers && target !in old(refs)))
      ensures plan == STEADY && old(Acceptable(r, plan)) && (target == old(BranchName())
              || (target !in old(refs) && target != "HEAD" && !Shadowed(target, old(refs).Keys, others))) ==>
              outcome.Committed?
      ensures outcome == NotCommitted ==> index == old(index) && bases == old(bases)
      ensures !old(Acceptable(r, plan) && Free(target, plan)) ==> outcome == NotCommitted && Now() == old(Now())
      ensures old(Acceptable(r, plan) && Free(target, plan)) ==>
              && old(HeadCommit()).Some?
              && (outcome.Committed? ==>
                    outcome.commit == Child(old(HeadCommit()).value, worktree, Strip(r.message)))
              && Concludes(old(JobOf(target, Strip(r.message), plan)), plan, outcome, old(index), old(bases))
    {
      outcome, target := NotCommitted, if r.branch.Some? then r.branch.value else "";
      if Spaces(r.message) || (r.branch.Some? && BadBranch(r.branch.value)) || !plan.preflight || locked {
        return;
      }
      locked := true;
      if Previewed(r, plan) {
        outcome, target := DeliverPreviewed(r, stamp, plan);
      }
      locked := false;
    }

    /** What follows the checks on the preview: the branch is chosen, looked for, and delivered onto. */
    method DeliverPreviewed(r: Request, stamp: string, plan: Plan) returns (outcome: Outcome, ghost target: string)
      requires Valid() && HeadCommit().Some? && locked
      modifies this`head, this`refs, this`index, this`locked, this`bases
      ensures Valid()
      ensures Chosen(old(Now()), r, stamp, plan, target)
      ensures if old(Free(target, plan))
              then Concludes(old(JobOf(target, Strip(r.message), plan)), plan, outcome, old(index), old(bases))
              else outcome == NotCommitted && Now() == old(Now()) && index == old(index) && bases == old(bases)
      ensures plan == STEADY && (target == old(BranchName())
              || (target !in old(refs) && target != "HEAD" && !Shadowed(target, old(refs).Keys, others))) ==>
              outcome.Committed?
    {
      outcome := NotCommitted;
      var branch := ChooseBranch(r, stamp, plan);
      target := branch;
      if Free(branch, plan) {
        SteadyDelivers(JobOf(branch, Strip(r.message), plan), worktree);
        outcome := Attempt(branch, Strip(r.message), plan);
      }
    }

    /** The branch asked for, or the current one if it was generated, or the first generated name not seen. */
    ghost predicate Chosen(start: Snapshot, r: Request, stamp: string, plan: Plan, target: string) {
      if r.branch.Some? then target == r.branch.value
      else if "praxis/" <= start.BranchName(others) then target == start.BranchName(others)
      else exists k :: FirstUnseen(start.refs.Keys, stamp, plan.naming, k, target)
    }

    /** The checks made on the preview, under the lock. */
    predicate Previewed(r: Request, plan: Plan)
      reads this
    {
      && plan.preview
      && HeadCommit().Some?
      && (r.expected.Some? ==> r.expected == CurrentIdentity())
      && r.changed > 0
    }

    method ChooseBranch(r: Request, stamp: string, plan: Plan) returns (branch: string)
      ensures Chosen(Now(), r, stamp, plan, branch)
    {
      if r.branch.Some? {
        branch := r.branch.value;
      } else if BRANCH_PREFIX <= BranchName() {
        branch := BranchName();
      } else {
        branch := FreeName(stamp, plan.naming);
      }
    }

    /** The transaction with its handler, on a branch taken to be free. */
    method Attempt(target: string, message: string, plan: Plan) returns (outcome: Outcome)
      requires Valid() && HeadCommit().Some? && locked
      modifies this`head, this`refs, this`index, this`locked, this`bases
      ensures Valid()
      ensures Concludes(old(JobOf(target, message, plan)), plan, outcome, old(index), old(bases))
    {
      var from, original := BranchName(), HeadCommit().value;
      ghost var j := JobOf(target, message, plan);
      RolledBackExactly(j, plan.commit);
      var end := Transact(j, from, original, target, message, plan);
      if end.Finished? {
        TipHolds(j);
        return Committed(end.commit, target, target != from);
      }
      FromIsHead(j);
      ghost var broken := Now();
      outcome := Recover(from, original, target, end, plan);
      PassesOn(j, plan.commit, broken, Now());
      StillSpares(j, broken.refs, refs);
      if outcome == NotCommitted {
        RecoveredIs(j, end, plan, worktree, broken);
      }
    }
  }

  /** The exception at work: a refused delivery onto an existing branch deletes that branch. */
  method SilentProbeLosesBranch(tip: Commit) returns (repo: Repository, outcome: Outcome)
    ensures outcome == NotCommitted && repo.refs == map["main" := tip]
  {
    repo := new Repository(OnBranch("main"), map["main" := tip, "spare" := tip], {}, None, map[]);
    assert Strip("m") == "m" && !Spaces("m") by { assert !IsSpace("m"[0]); }
    assert !BadBranch("spare");
    ghost var target;
    outcome, target := repo.Deliver(Request("m", Some("spare"), None, 1), "", STEADY.(taken := Silent));
    assert map["main" := tip, "spare" := tip] - {"spare"} == map["main" := tip];
  }

  /** Beside a tag of the same name: a refused delivery leaves HEAD on a branch that does not exist. */
  method TagMovesHead(tip: Commit) returns (repo: Repository, outcome: Outcome)
    ensures outcome == NotCommitted && repo.head == OnBranch("heads/main") && repo.refs == map["main" := tip]
  {
    repo := new Repository(OnBranch("main"), map["main" := tip], {"main"}, None, map[]);
    assert Strip("m") == "m" && !Spaces("m") by { assert !IsSpace("m"[0]); }
    assert !BadBranch("new");
    ghost var target;
    outcome, target := repo.Deliver(Request("m", Some("new"), None, 1), "", STEADY.(commit := Fails(false)));
    assert map["main" := tip] - {"new"} == map["main" := tip];
  }

  /** And where a branch has the longest name too, a commit that happened is reported as not committed. */
  method LongNameHidesCommit(tip: Commit) returns (repo: Repository, outcome: Outcome)
    ensures outcome == NotCommitted && repo.head == OnBranch("main")
    ensures "main" in repo.refs && repo.refs["main"] == Child(tip, map[], "m")
  {
    var refs := map["main" := tip, "heads/main" := tip, "refs/heads/main" := tip];
    repo := new Repository(OnBranch("main"), refs, {"main"}, None, map[]);
    assert Strip("m") == "m" && !Spaces("m") by { assert !IsSpace("m"[0]); }
    LongNameGood();
    assert repo.BranchName() == "refs/heads/main";
    ghost var j := repo.JobOf("refs/heads/main", "m", STEADY.(commit := Fails(true)));
    assert j.Misnamed() && j.RolledBack(Fails(true)) == j.Tip() && j.Tip().refs["main"] == j.made;
    ghost var target;
    outcome, target := repo.Deliver(Request("m", Some("refs/heads/main"), None, 1), "", STEADY.(commit := Fails(true)));
  }

  lemma LongNameGood()
    ensures !BadBranch("refs/heads/main")
    ensures "heads/" + "main" == "heads/main" && "refs/heads/" + "main" == "refs/heads/main"
  {
  }

  // ----- Reading `git status --porcelain -z`

  /** One change: two status letters, the path, and for a rename or copy the path it came from. */
  datatype Change = Change(letters: string, path: string, origin: string)

  predicate Renames(letters: string) { 'R' in letters || 'C' in letters }

  lemma RenamesAre(x: char, y: char)
    ensures Renames([x, y]) <==> x == 'R' || x == 'C' || y == 'R' || y == 'C'
  {
  }

  predicate WellFormed(c: Change) { |c.letters| == 2 }

  function Take(s: string, n: nat): string { if |s| <= n then s else s[..n] }

  function Drop(s: string, n: nat): string { if |s| <= n then "" else s[n..] }

  function Fields(changes: seq<Change>): seq<string> {
    if changes == [] then [""]
    else
      var c := changes[0];
      [c.letters + " " + c.path] + (if Renames(c.letters) then [c.origin] else []) + Fields(changes[1..])
  }

  function Listed(changes: seq<Change>): seq<(string, string)> {
    if changes == [] then [] else [(Strip(changes[0].letters), changes[0].path)] + Listed(changes[1..])
  }

  /** Reads entries from `offset` to the first empty field, skipping the origin of each rename. */
  function ListFrom(fields: seq<string>, offset: nat): seq<(string, string)>
    decreases |fields| - offset
  {
    if offset >= |fields| || fields[offset] == "" then []
    else
      var line := fields[offset];
      [(Strip(Take(line, 2)), Drop(line, 3))] + ListFrom(fields, offset + if Renames(Take(line, 2)) then 2 else 1)
  }

  method ListChanges(fields: seq<string>) returns (changed: seq<(string, string)>)
    ensures changed == ListFrom(fields, 0)
  {
    changed := [];
    var offset := 0;
    while offset < |fields| && fields[offset] != ""
      invariant changed + ListFrom(fields, offset) == ListFrom(fields, 0)
      decreases |fields| - offset
    {
      var line := fields[offset];
      changed := changed + [(Strip(Take(line, 2)), Drop(line, 3))];
      offset := offset + if Renames(Take(line, 2)) then 2 else 1;
    }
  }

  /** The reader lists exactly the changes git printed, whatever their paths and origins. */
  lemma {:induction false} ListingReadsBack(before: seq<string>, changes: seq<Change>)
    requires forall c | c in changes :: WellFormed(c)
    decreases |changes|
    ensures ListFrom(before + Fields(changes), |before|) == Listed(changes)
  {
    var all := before + Fields(changes);
    if changes != [] {
      var c := changes[0];
      assert WellFormed(c);
      var line := c.letters + " " + c.path;
      var mine := [line] + if Renames(c.letters) then [c.origin] else [];
      LineParts(c);
      FieldsSplit(before, mine, Fields(changes[1..]));
      assert ListFrom(all, |before|) == [(Strip(c.letters), c.path)] + ListFrom(all, |before + mine|);
      ListingReadsBack(before + mine, changes[1..]);
    }
  }

  lemma LineParts(c: Change)
    requires WellFormed(c)
    ensures var line := c.letters + " " + c.path; line != "" && Take(line, 2) == c.letters && Drop(line, 3) == c.path
  {
  }

  lemma FieldsSplit(before: seq<string>, mine: seq<string>, rest: seq<string>)
    requires mine != []
    ensures before + (mine + rest) == (before + mine) + rest
    ensures (before + (mine + rest))[|before|] == mine[0]
  {
  }
}
