/**
 What a snapshot observes depends on the workspace: while it has the temporary runtime layout, the
 four runtime directories are left out. Two restores during which that matters.
 */
module RestoreLimits {
  import opened Paths
  import opened WorkspaceRestore

  const IGNORED: set<string> := {
    ".agent_memory", ".cache", ".git", ".mypy_cache", ".nox", ".pytest_cache", ".praxis", ".rag",
    ".ruff_cache", ".tox", ".venv", "__pycache__", "node_modules"
  }

  const RUNTIME: set<string> := {"artifacts", "logs", "reports", "scratch"}

  predicate TemporaryLayout(files: map<Path, Node>, dirs: set<Path>) {
    && [".agent_memory"] in dirs
    && (forall n | n in RUNTIME :: [n] in dirs)
    && [".praxis", "runtime"] !in files && [".praxis", "runtime"] !in dirs
  }

  /** Left out below an ignored directory, below a runtime directory of the layout, or as a `.git` file. */
  predicate Hidden(p: Path, layout: bool) {
    || p == [] || p[|p| - 1] == ".git"
    || (exists i :: 0 <= i < |p| - 1 && p[i] in IGNORED)
    || (layout && |p| > 1 && p[0] in RUNTIME)
  }

  /** Some paths that are hidden, always or while the workspace has the layout, and some that are not. */
  lemma HiddenExamples(layout: bool)
    ensures Hidden(["sub", ".git"], layout) && Hidden([".git", "config"], layout)
    ensures Hidden(["sub", "node_modules", "x", "y"], layout) && Hidden([".praxis", "runtime", "db"], layout)
    ensures !Hidden(["src", "main"], layout) && !Hidden(["node_modules"], layout)
    ensures Hidden(["artifacts", "x"], layout) == layout == Hidden(["logs", "x", "y"], layout)
    ensures !Hidden(["artifacts"], layout) && !Hidden(["sub", "artifacts", "x"], layout)
  {
    var node, praxis := ["sub", "node_modules", "x", "y"], [".praxis", "runtime", "db"];
    assert node[1] in IGNORED && praxis[0] in IGNORED && [".git", "config"][0] in IGNORED;
    assert ["artifacts", "x"][0] in RUNTIME && ["logs", "x", "y"][0] in RUNTIME;
    assert forall p: Path | |p| == 1 :: forall i | 0 <= i < |p| - 1 :: p[i] !in IGNORED;
  }

  function Observed(): View {
    (files, dirs) => set p | p in files && !Hidden(p, TemporaryLayout(files, dirs))
  }

  function Shown(layout: bool): Path -> bool { p => !Hidden(p, layout) }

  lemma LayoutDecides(m: Moment, layout: bool)
    requires TemporaryLayout(m.files, m.dirs) == layout
    ensures SeenAt(Observed(), m) == Kept(m.files, Shown(layout))
  {
  }

  // ----- When a restore keeps the layout, or keeps being without it

  const RUNTIME_STATE: Path := [".praxis", "runtime"]

  /** A directory the layout needs. */
  predicate Needed(d: Path) { d == [".agent_memory"] || (|d| == 1 && d[0] in RUNTIME) }

  /** A directory that is missing, and that the target does not bring, stays missing. */
  lemma StaysMissing(before: Moment, seen: set<Path>, t: Checkpoint, m: Moment, d: Path)
    requires Layout(before.files, before.dirs) && Between(before, seen, t, m)
    requires d != [] && d !in before.dirs && forall p | p in t.entries :: !(d < p)
    ensures d !in m.dirs
  {
    forall f | f in m.files ensures !(d < f) {
      assert f in before.files || f in t.entries;
    }
    assert !FileBelow(m.files, d);
  }

  /** Without a needed directory, and with nothing of the target below it, there is no layout all along. */
  lemma LayoutStaysOff(before: Moment, t: Checkpoint, d: Path)
    requires Layout(before.files, before.dirs)
    requires Needed(d) && d !in before.dirs && forall p | p in t.entries :: !(d < p)
    ensures Steady(Observed(), Shown(false), before, t)
  {
    forall m | Between(before, SeenAt(Observed(), before), t, m)
      ensures SeenAt(Observed(), m) == Kept(m.files, Shown(false))
    {
      StaysMissing(before, SeenAt(Observed(), before), t, m, d);
      assert d == [d[0]];
      LayoutDecides(m, false);
    }
  }

  /** With a file of the runtime state, which no snapshot sees, there is no layout all along either. */
  lemma RuntimeStateKeepsOff(before: Moment, t: Checkpoint, f: Path)
    requires Layout(before.files, before.dirs) && f in before.files && RUNTIME_STATE <= f
    ensures Steady(Observed(), Shown(false), before, t)
  {
    assert f[0] == RUNTIME_STATE[0] && f[0] in IGNORED;
    assert Hidden(f, TemporaryLayout(before.files, before.dirs));
    forall m | Between(before, SeenAt(Observed(), before), t, m)
      ensures SeenAt(Observed(), m) == Kept(m.files, Shown(false))
    {
      assert f in m.files && (f == RUNTIME_STATE || RUNTIME_STATE < f);
      LayoutDecides(m, false);
    }
  }

  /** With a file in each needed directory, and no target path at or below the runtime state, the layout stays. */
  lemma LayoutStaysOn(before: Moment, t: Checkpoint)
    requires Layout(before.files, before.dirs) && TemporaryLayout(before.files, before.dirs)
    requires forall d | Needed(d) :: FileBelow(before.files, d)
    requires forall p | p in t.entries :: !(RUNTIME_STATE <= p)
    ensures Steady(Observed(), Shown(true), before, t)
  {
    var seen := SeenAt(Observed(), before);
    forall m | Between(before, seen, t, m) ensures SeenAt(Observed(), m) == Kept(m.files, Shown(true)) {
      StaysMissing(before, seen, t, m, RUNTIME_STATE);
      assert RUNTIME_STATE !in m.files;
      forall d | Needed(d) ensures d in m.dirs {
        NeededStays(before, t, m, d);
      }
      assert forall n | n in RUNTIME :: Needed([n]);
      LayoutDecides(m, true);
    }
  }

  lemma NeededStays(before: Moment, t: Checkpoint, m: Moment, d: Path)
    requires TemporaryLayout(before.files, before.dirs) && Between(before, SeenAt(Observed(), before), t, m)
    requires Needed(d) && FileBelow(before.files, d)
    ensures d in m.dirs
  {
    var f :| f in before.files && d < f;
    assert f[0] == d[0] && (f[0] in RUNTIME || f[0] in IGNORED);
    assert Hidden(f, true);
  }

  // ----- The workspace

  function Plain(blob: string): Node { Regular(blob, PLAIN_MODE) }

  const MEMORY: Path := [".agent_memory", "m"]
  const ARTIFACT: Path := ["artifacts", "x"]
  const REPORT: Path := ["reports", "r"]
  const SCRATCH: Path := ["scratch", "s"]
  const LOG: Path := ["logs", "l"]
  const LOGS: Path := ["logs"]

  /** Runtime files that stay, so that their directories do. */
  ghost predicate HasRuntime(files: map<Path, Node>) {
    MEMORY in files && ARTIFACT in files && REPORT in files && SCRATCH in files && LOG in files
  }

  lemma RuntimeLayout(m: Moment)
    requires Layout(m.files, m.dirs) && HasRuntime(m.files)
    requires forall p | p in m.files :: p in {MEMORY, ARTIFACT, REPORT, SCRATCH, LOG}
    requires AllNeeded(m)
    ensures TemporaryLayout(m.files, m.dirs)
  {
    assert [".agent_memory"] < MEMORY && ["artifacts"] < ARTIFACT && ["reports"] < REPORT;
    assert ["scratch"] < SCRATCH && ["logs"] < LOG;
    var runtime := [".praxis", "runtime"];
    assert forall f | f in m.files :: |f| == 2;
    assert !FileBelow(m.files, runtime);
    assert runtime[1] == "runtime" && MEMORY[1] == "m";
    assert runtime !in m.files;
  }

  lemma RuntimeHidden(p: Path)
    requires p in {MEMORY, ARTIFACT, REPORT, SCRATCH, LOG}
    ensures Hidden(p, true)
  {
    assert MEMORY[0] in IGNORED;
  }

  // ----- A target path that is no longer observed

  function Files(artifact: Node): map<Path, Node> {
    map[MEMORY := Plain(""), ARTIFACT := artifact, REPORT := Plain(""), SCRATCH := Plain(""), LOG := Plain("")]
  }

  function Parents(): set<Path> { {[".agent_memory"], ["artifacts"], ["reports"], ["scratch"], ["logs"]} }

  /** Taken while a runtime directory was missing. */
  function OldTarget(): Checkpoint { Checkpoint(map[ARTIFACT := File("old", false)], map[]) }

  lemma FilesLaidOut(artifact: Node)
    ensures Layout(Files(artifact), Parents()) && AllNeeded(Moment(Files(artifact), Parents()))
  {
    var files := Files(artifact);
    forall f, d | f in files && d < f && d != [] ensures d in Parents() {
      assert d == [f[0]];
    }
    forall d | d in Parents() ensures FileBelow(files, d) {
      NeededParent(files, d);
    }
  }

  lemma NeededParent(files: map<Path, Node>, d: Path)
    requires HasRuntime(files) && d in Parents()
    ensures FileBelow(files, d)
  {
    assert [".agent_memory"] < MEMORY && ["artifacts"] < ARTIFACT && ["reports"] < REPORT;
    assert ["scratch"] < SCRATCH && ["logs"] < LOG;
  }

  /** Every directory has a file below. */
  ghost predicate AllNeeded(m: Moment) { forall d | d in m.dirs :: FileBelow(m.files, d) }

  function Nothing(): Checkpoint { Checkpoint(map[], map[]) }

  /** Such a moment observes nothing. */
  lemma NothingObserved(m: Moment, artifact: Node)
    requires m.files == Files(artifact) && Layout(m.files, m.dirs) && AllNeeded(m)
    ensures SeenAt(Observed(), m) == {}
  {
    RuntimeLayout(m);
    forall p | p in m.files ensures Hidden(p, true) {
      RuntimeHidden(p);
    }
  }

  /** A restore that starts out observing nothing. */
  lemma UnseenRestore(see: View, before: Moment, t: Checkpoint, r: RestoreResult, middle: Moment, after: Moment)
    requires Outcome(see, before, t, None, None, r, middle, after)
    requires SeenAt(see, before) == {} && AllNeeded(before)
    requires t.entries.Keys != {} && !Obstructed(before.files, before.dirs, {}, t)
    ensures !r.Unchanged? && r.anchor == Nothing()
    ensures middle.files == Edited(before.files, {}, t) && Layout(middle.files, middle.dirs) && AllNeeded(middle)
    ensures if r.Restored? then Matches(StageOf(see, middle), t)
            else Undone(see, middle, Nothing(), None, r.rolledBack, after)
  {
    NothingStaged(see, before);
    NoHollow(before);
  }

  lemma NothingToDo(m: Moment)
    ensures Edited(m.files, {}, Nothing()) == m.files && !Obstructed(m.files, m.dirs, {}, Nothing())
  {
    forall f ensures Same(m.files, Edited(m.files, {}, Nothing()), f) {
      EditSpares(m.files, {}, Nothing(), f);
    }
    SameEverywhere(m.files, Edited(m.files, {}, Nothing()));
    assert Changed(m.files, {}, Nothing()) == {};
  }

  lemma NoHollow(m: Moment)
    requires AllNeeded(m)
    ensures HollowSpine(m.files, m.dirs) == {}
  {
  }

  lemma NothingStaged(see: View, m: Moment)
    requires SeenAt(see, m) == {}
    ensures StageOf(see, m) == Nothing()
  {
    CaptureAt(m.files, {});
  }

  /** A rollback to nothing of which nothing is observed changes nothing. */
  lemma UnseenRollback(see: View, middle: Moment, rolledBack: bool, after: Moment)
    requires Undone(see, middle, Nothing(), None, rolledBack, after) && SeenAt(see, middle) == {} && AllNeeded(middle)
    ensures after.files == middle.files && Layout(after.files, after.dirs) && AllNeeded(after)
    ensures SeenAt(see, after) == {} ==> rolledBack
  {
    NoHollow(middle);
    NothingToDo(middle);
    assert after.files == middle.files;
    if SeenAt(see, after) == {} {
      NothingStaged(see, after);
    }
  }

  /** Paths of one length do not obstruct each other. */
  lemma FlatUnobstructed(m: Moment, seen: set<Path>, t: Checkpoint)
    requires AllNeeded(m) && forall f | f in m.files :: |f| == 2
    requires forall p | p in t.entries :: |p| == 2
    ensures !Obstructed(m.files, m.dirs, seen, t)
  {
    forall p | p in Changed(m.files, seen, t) ensures !ObstructedAt(m.files, m.dirs, seen, p) {
    }
  }

  lemma ArtifactReplaced()
    ensures Edited(Files(Plain("new")), {}, OldTarget()) == Files(Plain("old"))
  {
    var edited, files := Edited(Files(Plain("new")), {}, OldTarget()), Files(Plain("old"));
    assert Materialize(OldTarget(), ARTIFACT) == Plain("old");
    assert edited.Keys == files.Keys;
    forall p | p in files ensures edited[p] == files[p] {
      assert p in OldTarget().entries <==> p == ARTIFACT;
    }
  }

  function Before(): Moment { Moment(Files(Plain("new")), Parents()) }

  lemma BeforeOverwriting()
    ensures SeenAt(Observed(), Before()) == {} && AllNeeded(Before()) && OldTarget().entries.Keys != {}
    ensures !Obstructed(Before().files, Before().dirs, {}, OldTarget())
    ensures Edited(Before().files, {}, OldTarget()) == Files(Plain("old"))
  {
    FilesLaidOut(Plain("new"));
    NothingObserved(Before(), Plain("new"));
    FlatUnobstructed(Before(), {}, OldTarget());
    ArtifactReplaced();
    assert ARTIFACT in OldTarget().entries;
  }

  /** Where neither the workspace before nor the edited one shows anything, a restore fails and reports a rollback. */
  lemma UnseenFailure(see: View, before: Moment, t: Checkpoint, r: RestoreResult, middle: Moment, after: Moment)
    requires Outcome(see, before, t, None, None, r, middle, after)
    requires SeenAt(see, before) == {} && AllNeeded(before) && t.entries.Keys != {}
    requires !Obstructed(before.files, before.dirs, {}, t)
    requires forall m | UnseenMoment(m, Edited(before.files, {}, t)) :: SeenAt(see, m) == {}
    ensures r.Failed? && r.rolledBack && after.files == Edited(before.files, {}, t)
  {
    UnseenRestore(see, before, t, r, middle, after);
    assert UnseenMoment(middle, Edited(before.files, {}, t));
    CaptureAt(middle.files, {});
    UnseenRollback(see, middle, r.rolledBack, after);
    assert UnseenMoment(after, Edited(before.files, {}, t));
  }

  ghost predicate UnseenMoment(m: Moment, files: map<Path, Node>) {
    m.files == files && Layout(m.files, m.dirs) && AllNeeded(m)
  }

  lemma OverwritingFails(r: RestoreResult, middle: Moment, after: Moment)
    requires Outcome(Observed(), Before(), OldTarget(), None, None, r, middle, after)
    ensures r.Failed? && r.rolledBack && after.files == Files(Plain("old"))
  {
    BeforeOverwriting();
    forall m | UnseenMoment(m, Files(Plain("old"))) ensures SeenAt(Observed(), m) == {} {
      NothingObserved(m, Plain("old"));
    }
    UnseenFailure(Observed(), Before(), OldTarget(), r, middle, after);
  }

  /** The restore overwrites the artifact, fails, and reports a complete rollback that left it overwritten. */
  lemma RollbackMissesOverwritten(r: RestoreResult, middle: Moment, after: Moment)
    requires Outcome(Observed(), Before(), OldTarget(), None, None, r, middle, after)
    ensures r.Failed? && r.rolledBack && after.files == Files(Plain("old")) && after.files != Before().files
    ensures !Truthful(Observed(), Before(), AfterEdit(Observed(), Before(), OldTarget()))
  {
    OverwritingFails(r, middle, after);
    BeforeOverwriting();
    ReportTrueExactly(Observed(), Before(), OldTarget(), r, middle, after);
    assert Files(Plain("old"))[ARTIFACT] != Files(Plain("new"))[ARTIFACT];
  }

  // ----- A layout that goes while restoring

  /** The layout holds, with one artifact. */
  function Laid(): Moment { Moment(map[ARTIFACT := Plain("kept")], Parents()) }

  /** Taken when `logs` was a file. */
  function LogTarget(): Checkpoint { Checkpoint(map[LOGS := File("log", false)], map[]) }

  function WithLog(): map<Path, Node> { map[ARTIFACT := Plain("kept"), LOGS := Plain("log")] }

  lemma LaidOut()
    ensures Layout(Laid().files, Laid().dirs) && SeenAt(Observed(), Laid()) == {}
    ensures !Obstructed(Laid().files, Laid().dirs, {}, LogTarget())
    ensures Edited(Laid().files, {}, LogTarget()) == WithLog()
  {
    LaidLayout();
    assert ["artifacts"] < ARTIFACT && ARTIFACT[0] != LOGS[0];
    LogWritten();
    RuntimeHidden(ARTIFACT);
    assert [".praxis", "runtime"][1] != ARTIFACT[1] && |[".praxis", "runtime"]| == 2;
  }

  lemma LaidLayout()
    ensures Layout(Laid().files, Laid().dirs)
  {
    forall d | d < ARTIFACT && d != [] ensures d in Parents() {
      assert d == [ARTIFACT[0]];
    }
  }

  lemma LogWritten()
    ensures Edited(Laid().files, {}, LogTarget()) == WithLog()
  {
    var edited := Edited(Laid().files, {}, LogTarget());
    assert edited.Keys == {ARTIFACT, LOGS};
  }

  /** Once `logs` is a file, the artifact is observed. */
  lemma ArtifactComesIntoView(middle: Moment)
    requires Layout(middle.files, middle.dirs) && middle.files == WithLog()
    ensures SeenAt(Observed(), middle) == {ARTIFACT, LOGS} && LOGS !in middle.dirs
  {
    assert LOGS in middle.files && LOGS == ["logs"] && "logs" in RUNTIME;
    assert ARTIFACT[0] !in IGNORED && ARTIFACT[1] != ".git" && LOGS[0] != ".git";
  }

  /** With nothing left there is no layout, and nothing to observe. */
  lemma NothingLeft(m: Moment)
    requires m.files == map[]
    ensures StageOf(Observed(), m) == Nothing()
  {
  }

  /** Going back from there to nothing deletes both. */
  lemma AllDeleted(middle: Moment)
    requires middle.files == WithLog()
    ensures !Obstructed(middle.files, middle.dirs, {ARTIFACT, LOGS}, Nothing())
    ensures Edited(middle.files, {ARTIFACT, LOGS}, Nothing()) == map[]
  {
    assert Changed(middle.files, {ARTIFACT, LOGS}, Nothing()) == {};
    assert Edited(middle.files, {ARTIFACT, LOGS}, Nothing()).Keys == {};
  }

  lemma LogReplacesDirectory(r: RestoreResult, middle: Moment, after: Moment)
    requires Outcome(Observed(), Laid(), LogTarget(), None, None, r, middle, after)
    ensures r.Failed? && r.rolledBack && after.files == map[]
  {
    LaidOut();
    NothingStaged(Observed(), Laid());
    assert LOGS in LogTarget().entries && LOGS !in Nothing().entries;
    assert middle.files == WithLog();
    ArtifactComesIntoView(middle);
    CaptureAt(middle.files, {ARTIFACT, LOGS});
    assert ARTIFACT !in LogTarget().entries;
    AllDeleted(middle);
    NothingLeft(after);
  }

  /** The restore writes the log, sees the artifact, fails, deletes it, and reports a complete rollback. */
  lemma RollbackDeletesUnobserved(r: RestoreResult, middle: Moment, after: Moment)
    requires Outcome(Observed(), Laid(), LogTarget(), None, None, r, middle, after)
    ensures r.Failed? && r.rolledBack && after.files == map[] && after.files != Laid().files
    ensures !Truthful(Observed(), Laid(), AfterEdit(Observed(), Laid(), LogTarget()))
  {
    LogReplacesDirectory(r, middle, after);
    LaidOut();
    ReportTrueExactly(Observed(), Laid(), LogTarget(), r, middle, after);
    assert ARTIFACT in Laid().files;
  }
}
