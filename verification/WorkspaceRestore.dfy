/**
 Restoring a checkpoint: delete what the target lacks, prune the directories that leaves
 empty, then write what differs. Files the snapshot never observes stay out of it.
 */
module WorkspaceRestore {
  import opened Paths

  /** A file as found: content and permission bits, or a link. */
  datatype Node = Regular(blob: string, mode: nat) | Link(target: string)

  /** A tree entry as git stores it. */
  datatype Entry = File(blob: string, executable: bool) | Symlink(target: string)

  /** A tree and its permission manifest, empty in historical checkpoints. */
  datatype Checkpoint = Checkpoint(entries: map<Path, Entry>, modes: map<Path, nat>)

  const LINK_MODE: nat := 0x1FF
  const PLAIN_MODE: nat := 0x1A4
  const EXECUTABLE_MODE: nat := 0x1ED

  predicate Executable(mode: nat) { mode / 64 % 2 == 1 || mode / 8 % 2 == 1 || mode % 2 == 1 }

  function EntryOf(n: Node): Entry {
    if n.Link? then Symlink(n.target) else File(n.blob, Executable(n.mode))
  }

  function ModeOf(n: Node): nat {
    if n.Link? then LINK_MODE else n.mode
  }

  /** The mode a target path should have: the manifest's, or git's default. */
  function ExpectedMode(t: Checkpoint, p: Path): nat
    requires p in t.entries
  {
    if p in t.modes then t.modes[p]
    else if t.entries[p].File? && t.entries[p].executable then EXECUTABLE_MODE else PLAIN_MODE
  }

  function Materialize(t: Checkpoint, p: Path): Node
    requires p in t.entries
  {
    match t.entries[p]
    case File(blob, _) => Regular(blob, ExpectedMode(t, p))
    case Symlink(target) => Link(target)
  }

  // ----- Layouts

  ghost predicate FileBelow(files: map<Path, Node>, d: Path) {
    exists f :: f in files && d < f
  }

  /** Files and directories are apart, and every ancestor below the root is a directory. */
  ghost predicate Layout(files: map<Path, Node>, dirs: set<Path>) {
    && [] !in files && [] !in dirs
    && (forall f | f in files :: f !in dirs)
    && (forall f, d | f in files && d < f && d != [] :: d in dirs)
    && (forall x, d | x in dirs && d < x && d != [] :: d in dirs)
  }

  predicate HasChild(files: map<Path, Node>, dirs: set<Path>, d: Path) {
    (exists x :: x in files && d < x && |x| == |d| + 1) || (exists x :: x in dirs && d < x && |x| == |d| + 1)
  }

  /** A directory with no file anywhere below it. */
  ghost predicate Hollow(files: map<Path, Node>, dirs: set<Path>, d: Path) {
    d in dirs && !FileBelow(files, d)
  }

  /** The hollow directories and everything above them. */
  ghost function HollowSpine(files: map<Path, Node>, dirs: set<Path>): set<Path> {
    set d | d in dirs && exists h :: h in dirs && d <= h && Hollow(files, dirs, h)
  }

  /** Directories are exactly the ancestors of files, and `spine`. */
  ghost predicate Spanned(files: map<Path, Node>, dirs: set<Path>, spine: set<Path>) {
    forall d :: d in dirs <==> d in spine || (d != [] && FileBelow(files, d))
  }

  /** The directories on the way to files. */
  ghost function ParentsOf(files: map<Path, Node>): set<Path> {
    set f, k | f in files && 0 < k < |f| :: f[..k]
  }

  lemma SpannedDirs(files: map<Path, Node>, dirs: set<Path>, spine: set<Path>)
    requires Spanned(files, dirs, spine)
    ensures dirs == spine + ParentsOf(files)
  {
    forall d ensures d in ParentsOf(files) <==> d != [] && FileBelow(files, d) {
      if d != [] && FileBelow(files, d) {
        var f :| f in files && d < f;
        assert d == f[..|d|];
      }
    }
  }

  lemma LayoutSpanned(files: map<Path, Node>, dirs: set<Path>)
    requires Layout(files, dirs)
    ensures Spanned(files, dirs, HollowSpine(files, dirs))
  {
    forall d | d in dirs && !FileBelow(files, d) ensures d in HollowSpine(files, dirs) {
      assert Hollow(files, dirs, d);
    }
  }

  /** A prefix-closed spine. */
  ghost predicate Closed(spine: set<Path>) {
    [] !in spine && forall x, d | x in spine && d < x && d != [] :: d in spine
  }

  lemma SpineClosed(files: map<Path, Node>, dirs: set<Path>)
    requires Layout(files, dirs)
    ensures Closed(HollowSpine(files, dirs))
  {
    forall x, d | x in HollowSpine(files, dirs) && d < x && d != [] ensures d in HollowSpine(files, dirs) {
      var h :| h in dirs && x <= h && Hollow(files, dirs, h);
      assert d <= h && d in dirs;
    }
  }

  lemma SpannedLayout(files: map<Path, Node>, dirs: set<Path>, spine: set<Path>)
    requires Spanned(files, dirs, spine) && Closed(spine) && [] !in files
    requires forall f | f in files :: f !in dirs
    ensures Layout(files, dirs)
  {
    forall x, d | x in dirs && d < x && d != [] ensures d in dirs {
      if x !in spine {
        var f :| f in files && x < f;
        assert d < f;
      }
    }
  }

  /** Every spine directory above `path` also leads somewhere that is not above it. */
  ghost predicate Sidesteps(spine: set<Path>, path: Path) {
    forall s | s in spine && s < path :: exists h :: h in spine && s < h && !(h < path)
  }

  lemma SpineSidesteps(files: map<Path, Node>, dirs: set<Path>, path: Path)
    requires path in files
    ensures Sidesteps(HollowSpine(files, dirs), path)
  {
    var spine := HollowSpine(files, dirs);
    forall s | s in spine && s < path ensures exists h :: h in spine && s < h && !(h < path) {
      var h :| h in dirs && s <= h && Hollow(files, dirs, h);
      assert FileBelow(files, s) && h in spine && s < h;
    }
  }

  // ----- Checkpoints and what stands in their way

  ghost function EntriesOf(files: map<Path, Node>): (entries: map<Path, Entry>)
    ensures entries.Keys == files.Keys && forall p | p in files :: entries[p] == EntryOf(files[p])
    decreases |files|
  {
    if files == map[] then map[]
    else
      var p :| p in files;
      EntriesOf(files - {p})[p := EntryOf(files[p])]
  }

  ghost function ModesOf(files: map<Path, Node>): (modes: map<Path, nat>)
    ensures modes.Keys == files.Keys && forall p | p in files :: modes[p] == ModeOf(files[p])
    decreases |files|
  {
    if files == map[] then map[]
    else
      var p :| p in files;
      ModesOf(files - {p})[p := ModeOf(files[p])]
  }

  /** The tree and manifest of the observed files. */
  ghost function Capture(files: map<Path, Node>, seen: set<Path>): Checkpoint {
    var shown := files - (files.Keys - seen);
    Checkpoint(EntriesOf(shown), ModesOf(shown))
  }

  /** What every checkpoint holds: a prefix-free tree, and no manifest or a consistent one. */
  ghost predicate ValidTarget(t: Checkpoint) {
    && [] !in t.entries
    && (forall p, q | p in t.entries && q in t.entries :: !(p < q))
    && (t.modes == map[] || t.modes.Keys == t.entries.Keys)
    && (forall p | p in t.entries && p in t.modes ::
          match t.entries[p]
          case File(_, executable) => executable == Executable(t.modes[p])
          case Symlink(_) => t.modes[p] == LINK_MODE)
  }

  lemma CaptureValid(files: map<Path, Node>, dirs: set<Path>, seen: set<Path>)
    requires Layout(files, dirs)
    ensures ValidTarget(Capture(files, seen))
  {
    var t := Capture(files, seen);
    if t.entries == map[] {
      assert t.modes == map[];
    }
    forall p, q | p in t.entries && q in t.entries ensures !(p < q) {
      assert p in files && q in files;
    }
  }

  /** The target paths that the staged tree lacks, or has with other content or permissions. */
  function Changed(files: map<Path, Node>, seen: set<Path>, t: Checkpoint): set<Path> {
    set p | p in t.entries
         && (|| p !in files || p !in seen
             || EntryOf(files[p]) != t.entries[p] || ExpectedMode(t, p) != ModeOf(files[p])) :: p
  }

  /** What the target wants at a path: the manifest's permissions, else 0755 or 0644; of a link its target. */
  lemma MaterializeMeans(t: Checkpoint, p: Path)
    requires p in t.entries
    ensures t.entries[p].File? ==>
            Materialize(t, p) == Regular(t.entries[p].blob, if p in t.modes then t.modes[p]
                                                            else if t.entries[p].executable then 0x1ED else 0x1A4)
    ensures t.entries[p].Symlink? ==> Materialize(t, p) == Link(t.entries[p].target)
  {
  }

  /** Any of the three execute bits makes a file executable. */
  lemma ExecutableMeans(owner: bool, group: bool, other: bool)
    ensures Executable(0x1B6 + (if owner then 0x40 else 0) + (if group then 8 else 0) + (if other then 1 else 0))
       <==> owner || group || other
  {
  }

  /** A path of the target is written unless it is observed and there as wanted; a link needs the manifest to tell. */
  lemma ChangedMeans(files: map<Path, Node>, seen: set<Path>, t: Checkpoint, p: Path)
    requires ValidTarget(t)
    ensures p in Changed(files, seen, t) <==>
            && p in t.entries
            && !(p in files && p in seen && files[p] == Materialize(t, p) && (files[p].Link? ==> p in t.modes))
  {
    DefaultModes();
    if p in t.entries && p in files {
      NodeByParts(files[p], Materialize(t, p));
    }
  }

  /** The observed paths the target lacks. */
  function Extra(files: map<Path, Node>, seen: set<Path>, t: Checkpoint): set<Path> {
    set p | p in files && p in seen && p !in t.entries :: p
  }

  /** Something the snapshot does not see stands above or below `p`. */
  ghost predicate ObstructedAt(files: map<Path, Node>, dirs: set<Path>, seen: set<Path>, p: Path) {
    || (exists u :: u in files && u !in seen && (u < p || p < u))
    || (exists h :: h in dirs && p < h && Hollow(files, dirs, h))
  }

  ghost predicate Obstructed(files: map<Path, Node>, dirs: set<Path>, seen: set<Path>, t: Checkpoint) {
    exists p :: p in Changed(files, seen, t) && ObstructedAt(files, dirs, seen, p)
  }

  /** The files of a target, some of its paths. */
  ghost function NodesAt(t: Checkpoint, paths: set<Path>): (nodes: map<Path, Node>)
    requires paths <= t.entries.Keys
    ensures nodes.Keys == paths && forall p | p in paths :: nodes[p] == Materialize(t, p)
    decreases |paths|
  {
    if paths == {} then map[]
    else
      var p :| p in paths;
      NodesAt(t, paths - {p})[p := Materialize(t, p)]
  }

  /** Observed files give way to the target's, which also replace unobserved ones at their paths. */
  ghost function Edited(files: map<Path, Node>, seen: set<Path>, t: Checkpoint): (edited: map<Path, Node>)
    ensures edited.Keys == (files.Keys - seen) + t.entries.Keys
    ensures forall p | p in edited :: edited[p] == if p in t.entries then Materialize(t, p) else files[p]
  {
    (files - seen) + NodesAt(t, t.entries.Keys)
  }

  predicate Same(a: map<Path, Node>, b: map<Path, Node>, p: Path) {
    (p in a <==> p in b) && (p in a ==> a[p] == b[p])
  }

  /** The two agree within `some`. */
  ghost predicate SameWithin(a: map<Path, Node>, b: map<Path, Node>, some: set<Path>) {
    forall p | p in some :: Same(a, b, p)
  }

  /** Every path is as it was, as the target wants it, or an observed one deleted. */
  ghost predicate PartlyEdited(before: map<Path, Node>, files: map<Path, Node>, seen: set<Path>, t: Checkpoint) {
    forall p ::
      || Same(before, files, p)
      || (p in t.entries && p in files && files[p] == Materialize(t, p))
      || (p in seen && p !in t.entries && p !in files)
  }

  /** Directories without files below them lie on a given spine. */
  ghost predicate NoNewHollow(files: map<Path, Node>, dirs: set<Path>, spine: set<Path>) {
    forall d | d in dirs :: d in spine || FileBelow(files, d)
  }

  lemma NoNewHollowComposes(before: map<Path, Node>, beforeDirs: set<Path>, middle: map<Path, Node>,
                            middleDirs: set<Path>,
                            files: map<Path, Node>, dirs: set<Path>)
    requires Layout(before, beforeDirs) && Layout(middle, middleDirs)
    requires NoNewHollow(middle, middleDirs, HollowSpine(before, beforeDirs))
    requires NoNewHollow(files, dirs, HollowSpine(middle, middleDirs))
    ensures NoNewHollow(files, dirs, HollowSpine(before, beforeDirs))
  {
    SpineClosed(before, beforeDirs);
    forall d | d in HollowSpine(middle, middleDirs) ensures d in HollowSpine(before, beforeDirs) {
      var h :| h in middleDirs && d <= h && Hollow(middle, middleDirs, h);
      assert h in HollowSpine(before, beforeDirs);
    }
  }

  ghost predicate WriteBlocked(files: map<Path, Node>, dirs: set<Path>, p: Path) {
    (exists q :: q in files && q < p) || (p in dirs && HasChild(files, dirs, p))
  }

  datatype RestoreResult =
    | Unchanged
    | Restored(anchor: Checkpoint)
    | Failed(anchor: Checkpoint, rolledBack: bool)

  /** The staged workspace is the target already; a missing manifest demands no permissions. */
  predicate Matches(staged: Checkpoint, t: Checkpoint) {
    staged.entries == t.entries && (t.modes == map[] || t.modes == staged.modes)
  }

  /** Between the deletions and the last write: what is written is the target's, the rest is as it was. */
  ghost predicate Underway(files0: map<Path, Node>, seen: set<Path>, t: Checkpoint, written: set<Path>,
                           files: map<Path, Node>)
  {
    && written <= t.entries.Keys
    && (forall p :: p in files <==> (p in files0 && (p in seen ==> p in t.entries)) || p in written)
    && (forall p | p in files :: files[p] == if p in written then Materialize(t, p) else files0[p])
  }

  ghost predicate Progress(files0: map<Path, Node>, dirs0: set<Path>, seen: set<Path>, t: Checkpoint,
                           written: set<Path>, files: map<Path, Node>, dirs: set<Path>)
  {
    && Underway(files0, seen, t, written, files)
    && Layout(files, dirs)
    && Spanned(files, dirs, HollowSpine(files0, dirs0) - written)
    && Closed(HollowSpine(files0, dirs0) - written)
  }

  /** After deleting `gone` and pruning. */
  ghost predicate Emptied(files0: map<Path, Node>, dirs0: set<Path>, gone: set<Path>, files: map<Path, Node>,
                          dirs: set<Path>) {
    files == files0 - gone && Layout(files, dirs) && Spanned(files, dirs, HollowSpine(files0, dirs0))
  }

  function Members(list: seq<Path>): set<Path> { set p | p in list }

  predicate Distinct(list: seq<Path>) { forall i, j :: 0 <= i < j < |list| ==> list[i] != list[j] }

  lemma MembersGrow(list: seq<Path>, i: nat)
    requires i < |list| && Distinct(list)
    ensures Members(list[..i + 1]) == Members(list[..i]) + {list[i]} && list[i] !in Members(list[..i])
  {
    assert list[..i + 1] == list[..i] + [list[i]];
  }

  method Listing(s: set<Path>) returns (list: seq<Path>)
    ensures Members(list) == s && Distinct(list) && |list| == |s|
  {
    list := [];
    var todo := s;
    while todo != {}
      invariant todo <= s && Members(list) == s - todo && Distinct(list) && |list| + |todo| == |s|
      decreases |todo|
    {
      var p :| p in todo;
      assert forall i | 0 <= i < |list| :: list[i] in Members(list);
      assert Members(list + [p]) == Members(list) + {p};
      list, todo := list + [p], todo - {p};
    }
  }

  /** The tree and manifest of the files at `done`. */
  ghost predicate Staging(files: map<Path, Node>, done: set<Path>, t: Checkpoint) {
    && t.entries.Keys == done && t.modes.Keys == done && done <= files.Keys
    && forall p | p in done :: t.entries[p] == EntryOf(files[p]) && t.modes[p] == ModeOf(files[p])
  }

  lemma StageOne(files: map<Path, Node>, done: set<Path>, t: Checkpoint, p: Path)
    requires Staging(files, done, t) && p in files
    ensures Staging(files, done + {p},
                    Checkpoint(t.entries[p := EntryOf(files[p])], t.modes[p := ModeOf(files[p])]))
  {
  }

  lemma Staged(files: map<Path, Node>, seen: set<Path>, t: Checkpoint)
    requires Staging(files, seen, t)
    ensures t == Capture(files, seen)
  {
    CaptureAt(files, seen);
    var c := Capture(files, seen);
    assert t.entries == c.entries;
    assert t.modes == c.modes;
  }

  lemma NotYet(list: seq<Path>, i: nat)
    requires Distinct(list) && i <= |list|
    ensures i < |list| ==> list[i] !in Members(list[..i])
  {
    if i < |list| {
      MembersGrow(list, i);
    }
  }

  lemma EmptiedStarts(files: map<Path, Node>, dirs: set<Path>)
    requires Layout(files, dirs)
    ensures Emptied(files, dirs, Members([]), files, dirs)
  {
    LayoutSpanned(files, dirs);
    assert files - Members([]) == files;
  }

  lemma EmptiedGives(files0: map<Path, Node>, dirs0: set<Path>, seen: set<Path>, t: Checkpoint, gone: set<Path>,
                     files: map<Path, Node>, dirs: set<Path>)
    requires Emptied(files0, dirs0, gone, files, dirs) && gone <= Extra(files0, seen, t)
    ensures PartlyEdited(files0, files, seen, t) && NoNewHollow(files, dirs, HollowSpine(files0, dirs0))
  {
  }

  lemma WriteStarts(files0: map<Path, Node>, dirs0: set<Path>, seen: set<Path>, t: Checkpoint,
                    files: map<Path, Node>, dirs: set<Path>)
    requires Layout(files0, dirs0) && Emptied(files0, dirs0, Extra(files0, seen, t), files, dirs)
    ensures Progress(files0, dirs0, seen, t, {}, files, dirs)
  {
    SpineClosed(files0, dirs0);
    assert HollowSpine(files0, dirs0) - {} == HollowSpine(files0, dirs0);
  }

  lemma ProgressGives(files0: map<Path, Node>, dirs0: set<Path>, seen: set<Path>, t: Checkpoint,
                      written: set<Path>, files: map<Path, Node>, dirs: set<Path>)
    requires ValidTarget(t) && Progress(files0, dirs0, seen, t, written, files, dirs)
    ensures PartlyEdited(files0, files, seen, t) && NoNewHollow(files, dirs, HollowSpine(files0, dirs0))
  {
  }

  // ----- Steps

  /** The workspace at one moment. */
  datatype Moment = Moment(files: map<Path, Node>, dirs: set<Path>)

  type View = (map<Path, Node>, set<Path>) -> set<Path>

  function SeenIn(see: View, files: map<Path, Node>, dirs: set<Path>): set<Path> { see(files, dirs) * files.Keys }

  function SeenAt(see: View, m: Moment): set<Path> { SeenIn(see, m.files, m.dirs) }

  ghost function StageOf(see: View, m: Moment): Checkpoint { Capture(m.files, SeenAt(see, m)) }

  /** Directories without files below them were there before, on the way to one without files below. */
  ghost predicate Grows(before: Moment, after: Moment) {
    Layout(after.files, after.dirs) && NoNewHollow(after.files, after.dirs, HollowSpine(before.files, before.dirs))
  }

  ghost predicate ObstructedFrom(see: View, m: Moment, t: Checkpoint) {
    Obstructed(m.files, m.dirs, SeenAt(see, m), t)
  }

  /** The workspace after a complete edit towards `t`, its directories included. */
  ghost function AfterEdit(see: View, m: Moment, t: Checkpoint): Moment {
    var files := Edited(m.files, SeenAt(see, m), t);
    Moment(files, HollowSpine(m.files, m.dirs) - Changed(m.files, SeenAt(see, m), t) + ParentsOf(files))
  }

  /** A path of the target has no file. */
  ghost predicate Lacks(files: map<Path, Node>, t: Checkpoint) { exists p :: p in t.entries && p !in files }

  /** The edit towards the target, complete exactly when nothing fails and nothing is in the way. */
  ghost predicate EditedTowards(see: View, before: Moment, t: Checkpoint, fault: Option<nat>, complete: bool,
                                after: Moment) {
    && Grows(before, after)
    && PartlyEdited(before.files, after.files, SeenAt(see, before), t)
    && (complete ==> after == AfterEdit(see, before, t))
    && (fault.None? || fault.value >= Operations(see, before, t) ==>
          (complete <==> !ObstructedFrom(see, before, t)) && (complete || Lacks(after.files, t)))
  }

  /** How many files an edit deletes and writes, unless it breaks off. */
  function Operations(see: View, before: Moment, t: Checkpoint): nat {
    |Extra(before.files, SeenAt(see, before), t)| + |Changed(before.files, SeenAt(see, before), t)|
  }

  /** What `RollBack` does from `middle`, and what its report means. */
  ghost predicate Undone(see: View, middle: Moment, anchor: Checkpoint, fault: Option<nat>, rolledBack: bool,
                         after: Moment) {
    && (rolledBack <==> StageOf(see, after) == anchor)
    && (|| EditedTowards(see, middle, anchor, fault, true, after)
        || EditedTowards(see, middle, anchor, fault, false, after))
  }

  /** What a restore does and reports, however the observed paths change along the way. */
  ghost predicate Outcome(see: View, before: Moment, t: Checkpoint, fault: Option<nat>, rollbackFault: Option<nat>,
                          r: RestoreResult, middle: Moment, after: Moment)
  {
    var same := Matches(StageOf(see, before), t);
    match r
    case Unchanged => same && middle == before && after == before
    case Restored(anchor) =>
      && !same && anchor == StageOf(see, before) && middle == after
      && EditedTowards(see, before, t, fault, true, middle) && Matches(StageOf(see, middle), t)
    case Failed(anchor, rolledBack) =>
      && !same && anchor == StageOf(see, before)
      && (|| EditedTowards(see, before, t, fault, false, middle)
          || (EditedTowards(see, before, t, fault, true, middle) && !Matches(StageOf(see, middle), t)))
      && Undone(see, middle, anchor, rollbackFault, rolledBack, after)
  }

  ghost function Kept(files: map<Path, Node>, keep: Path -> bool): set<Path> { set p | p in files && keep(p) }

  /** A workspace that a restore may pass through: files from before or the target's, and the unobserved ones kept. */
  ghost predicate Between(before: Moment, seen: set<Path>, t: Checkpoint, m: Moment) {
    && Grows(before, m)
    && (forall p | p in m.files ::
          || (p in before.files && m.files[p] == before.files[p])
          || (p in t.entries && m.files[p] == Materialize(t, p)))
    && (forall p | p in before.files && p !in seen :: p in m.files)
  }

  /** Wherever restoring `t` may lead from here, the same kind of path is observed. */
  ghost predicate Steady(see: View, keep: Path -> bool, before: Moment, t: Checkpoint) {
    forall m | Between(before, SeenAt(see, before), t, m) :: SeenAt(see, m) == Kept(m.files, keep)
  }

  /** No unobserved target path stands above or below an observed file. */
  ghost predicate Clear(files: map<Path, Node>, t: Checkpoint, keep: Path -> bool) {
    forall p, q | p in t.entries && !keep(p) && q in files && keep(q) :: !(p < q || q < p)
  }

  ghost predicate KeepsTarget(t: Checkpoint, keep: Path -> bool) { forall p | p in t.entries :: keep(p) }

  /** Every unobserved path of the target is as the target wants it already. */
  ghost predicate Settled(files: map<Path, Node>, t: Checkpoint, keep: Path -> bool) {
    forall p | p in t.entries && !keep(p) :: p in files && files[p] == Materialize(t, p)
  }

  /** The moments before, in the middle of and after a restore, and in the middle of and after its undoing. */
  datatype Trip = Trip(before: Moment, middle: Moment, there: Moment, later: Moment, after: Moment)

  ghost predicate ThereAndBack(see: View, t: Checkpoint, first: RestoreResult, second: RestoreResult, trip: Trip) {
    && Layout(trip.before.files, trip.before.dirs)
    && Outcome(see, trip.before, t, None, None, first, trip.middle, trip.there)
    && (first.Restored? ==> Outcome(see, trip.there, first.anchor, None, None, second, trip.later, trip.after))
  }

  lemma BrokeOff(see: View, before: Moment, t: Checkpoint, fault: Option<nat>, after: Moment)
    requires Grows(before, after) && PartlyEdited(before.files, after.files, SeenAt(see, before), t)
    requires fault.Some? && fault.value < Operations(see, before, t)
    ensures EditedTowards(see, before, t, fault, false, after)
  {
  }

  lemma WentThrough(see: View, before: Moment, t: Checkpoint, fault: Option<nat>, deletions: nat, writes: nat, ok: bool,
                    after: Moment)
    requires Grows(before, after) && PartlyEdited(before.files, after.files, SeenAt(see, before), t)
    requires ok ==> after == AfterEdit(see, before, t)
    requires Operations(see, before, t) == deletions + writes
    requires fault.None? || fault.value >= deletions + writes ==>
               (ok <==> !ObstructedFrom(see, before, t)) && (ok || Lacks(after.files, t))
    ensures EditedTowards(see, before, t, fault, ok, after)
  {
  }

  class Workspace {
    var files: map<Path, Node>
    var dirs: set<Path>
    /** The observed paths, which depend on the workspace at each staging. */
    const see: View

    constructor (files: map<Path, Node>, dirs: set<Path>, see: View)
      ensures this.files == files && this.dirs == dirs && this.see == see
    {
      this.files, this.dirs, this.see := files, dirs, see;
    }

    function Seen(): set<Path>
      reads this
    {
      SeenIn(see, files, dirs)
    }

    /** Removes directories left empty, from `path`'s parent upwards. */
    method PruneEmptyParents(gone: Path, ghost before: map<Path, Node>, ghost spine: set<Path>)
      requires gone != [] && gone in before && files == before - {gone}
      requires Spanned(before, dirs, spine) && Closed(spine) && Sidesteps(spine, gone)
      modifies this`dirs
      ensures Spanned(files, dirs, spine)
    {
      var parent := gone[..|gone| - 1];
      PruneEntry(before, files, dirs, spine, gone, parent);
      while parent != []
        invariant parent < gone
        invariant forall d :: d in dirs <==>
                    d in spine || (d != [] && FileBelow(files, d)) || d in UpTo(parent)
        decreases |parent|
      {
        if HasChild(files, dirs, parent) {
          ParentKept(files, dirs, spine, gone, parent);
          return;
        }
        ParentEmpty(before, files, dirs, spine, gone, parent);
        dirs := dirs - {parent};
        UpToParent(parent);
        parent := parent[..|parent| - 1];
      }
    }

    /** Unlinks a file and prunes what it leaves empty. */
    method DeleteFile(path: Path, ghost spine: set<Path>)
      requires path in files && path != [] && Spanned(files, dirs, spine) && Closed(spine) && Sidesteps(spine, path)
      modifies this`files, this`dirs
      ensures files == old(files) - {path} && Spanned(files, dirs, spine)
    {
      ghost var before := files;
      files := files - {path};
      PruneEmptyParents(path, before, spine);
    }

    /** Makes the parents, replaces an empty directory, installs the file. */
    method WriteFile(path: Path, node: Node, ghost spine: set<Path>) returns (ok: bool)
      requires path != [] && [] !in files && Spanned(files, dirs, spine) && Closed(spine)
      modifies this`files, this`dirs
      ensures ok <==> !old(WriteBlocked(files, dirs, path))
      ensures ok ==> files == old(files)[path := node] && Spanned(files, dirs, spine - {path}) && path !in dirs
      ensures !ok ==> files == old(files) && dirs == old(dirs)
    {
      var k := 1;
      while k < |path|
        invariant 1 <= k <= |path|
        invariant files == old(files)
        invariant forall j | 0 < j < k :: path[..j] !in files
        invariant dirs == old(dirs) + UpTo(path[..k - 1])
      {
        var parent := path[..k];
        if parent in files {
          AboveFile(files, dirs, old(dirs), spine, path[..k - 1], parent);
          return false;
        }
        UpToParent(parent);
        assert parent[..|parent| - 1] == path[..k - 1];
        dirs := dirs + {parent};
        k := k + 1;
      }
      NothingAbove(files, path);
      var above := path[..|path| - 1];
      if path in dirs {
        PathWasDirectory(old(dirs), path);
        if HasChild(files, dirs, path) {
          SpannedUpTo(files, old(dirs), spine, path);
          assert dirs == old(dirs);
          return false;
        }
        dirs := dirs - {path};
      }
      WriteSpans(old(files), old(dirs), spine, path, node, dirs);
      files := files[path := node];
      ok := true;
    }

    method DeleteOne(path: Path, ghost files0: map<Path, Node>, ghost dirs0: set<Path>, ghost gone: set<Path>)
      requires Layout(files0, dirs0) && Emptied(files0, dirs0, gone, files, dirs)
      requires path in files0 && path !in gone && gone <= files0.Keys
      modifies this`files, this`dirs
      ensures Emptied(files0, dirs0, gone + {path}, files, dirs)
    {
      SpineClosed(files0, dirs0);
      SpineSidesteps(files0, dirs0, path);
      ghost var before, beforeDirs := files, dirs;
      DeleteFile(path, HollowSpine(files0, dirs0));
      DeletionApart(before, beforeDirs, files, dirs, HollowSpine(files0, dirs0));
      SpannedLayout(files, dirs, HollowSpine(files0, dirs0));
    }

    /** The deletions in some order; each leaves its directory chain pruned. */
    method DeleteAll(list: seq<Path>, fault: Option<nat>) returns (done: nat)
      requires Layout(files, dirs) && Distinct(list) && forall p | p in list :: p in files
      modifies this`files, this`dirs
      ensures done <= |list| && (fault.None? || fault.value >= |list| ==> done == |list|)
      ensures Emptied(old(files), old(dirs), Members(list[..done]), files, dirs)
    {
      ghost var files0, dirs0 := files, dirs;
      EmptiedStarts(files, dirs);
      done := 0;
      while done < |list| && fault != Some(done)
        invariant done <= |list|
        invariant Emptied(files0, dirs0, Members(list[..done]), files, dirs)
      {
        MembersGrow(list, done);
        DeleteOne(list[done], files0, dirs0, Members(list[..done]));
        done := done + 1;
      }
    }

    method WriteOne(t: Checkpoint, path: Path, ghost files0: map<Path, Node>, ghost dirs0: set<Path>,
                    ghost seen: set<Path>, ghost written: set<Path>)
      returns (ok: bool)
      requires Layout(files0, dirs0) && ValidTarget(t)
      requires Progress(files0, dirs0, seen, t, written, files, dirs)
      requires path in t.entries && path !in written
      modifies this`files, this`dirs
      ensures ok <==> !ObstructedAt(files0, dirs0, seen, path)
      ensures ok ==> Progress(files0, dirs0, seen, t, written + {path}, files, dirs)
      ensures !ok ==> files == old(files) && dirs == old(dirs)
    {
      ghost var rest := HollowSpine(files0, dirs0) - written;
      BlockedIsObstructed(files0, dirs0, seen, t, written, files, dirs, path);
      ghost var before, beforeDirs := files, dirs;
      ok := WriteFile(path, Materialize(t, path), rest);
      if ok {
        assert rest - {path} == HollowSpine(files0, dirs0) - (written + {path});
        StaysClosed(files0, dirs0, seen, rest, path);
        WriteApart(before, beforeDirs, files, dirs, rest, path);
        SpannedLayout(files, dirs, rest - {path});
      }
    }

    /** The writes in some order, up to the first that is obstructed or fails. */
    method WriteAll(list: seq<Path>, t: Checkpoint, fault: Option<nat>, ghost files0: map<Path, Node>,
                    ghost dirs0: set<Path>,
                    ghost seen: set<Path>)
      returns (done: nat)
      requires Layout(files0, dirs0) && ValidTarget(t) && Distinct(list)
      requires forall p | p in list :: p in t.entries
      requires Progress(files0, dirs0, seen, t, {}, files, dirs)
      modifies this`files, this`dirs
      ensures done <= |list|
      ensures Progress(files0, dirs0, seen, t, Members(list[..done]), files, dirs)
      ensures forall p | p in list[..done] :: !ObstructedAt(files0, dirs0, seen, p)
      ensures done < |list| && (fault.None? || fault.value >= |list|) ==> ObstructedAt(files0, dirs0, seen, list[done])
    {
      done := 0;
      assert Members(list[..0]) == {};
      while done < |list| && fault != Some(done)
        invariant done <= |list|
        invariant Progress(files0, dirs0, seen, t, Members(list[..done]), files, dirs)
        invariant forall p | p in list[..done] :: !ObstructedAt(files0, dirs0, seen, p)
      {
        MembersGrow(list, done);
        var ok := WriteOne(t, list[done], files0, dirs0, seen, Members(list[..done]));
        if !ok {
          return;
        }
        done := done + 1;
      }
    }

    /** Every file operation may be the one that fails; without a failure only an obstruction stops it. */
    method RestoreTree(t: Checkpoint, fault: Option<nat>) returns (ok: bool)
      requires Layout(files, dirs) && ValidTarget(t)
      modifies this`files, this`dirs
      ensures Layout(files, dirs)
      ensures EditedTowards(see, Moment(old(files), old(dirs)), t, fault, ok, Moment(files, dirs))
    {
      ghost var before := Moment(files, dirs);
      var deleted, restored := Plan(t);
      var gone := DeleteExtra(t, fault, deleted, SeenAt(see, before));
      if gone < |deleted| {
        BrokeOff(see, before, t, fault, Moment(files, dirs));
        return false;
      }
      var later := if fault.Some? && fault.value >= gone then Some(fault.value - gone) else None;
      ok := WriteChanged(t, later, restored, before);
      WentThrough(see, before, t, fault, |deleted|, |restored|, ok, Moment(files, dirs));
    }

    /** What is to be deleted, and what to be written, each in some order. */
    method Plan(t: Checkpoint) returns (deleted: seq<Path>, restored: seq<Path>)
      ensures Distinct(deleted) && Members(deleted) == Extra(files, Seen(), t)
      ensures Distinct(restored) && Members(restored) == Changed(files, Seen(), t)
      ensures |deleted| + |restored| == Operations(see, Moment(files, dirs), t)
    {
      deleted := Listing(Extra(files, Seen(), t));
      restored := Listing(Changed(files, Seen(), t));
    }

    /** The deleting half of the edit. */
    method DeleteExtra(t: Checkpoint, fault: Option<nat>, deleted: seq<Path>, ghost seen: set<Path>) returns (gone: nat)
      requires Layout(files, dirs) && ValidTarget(t) && Distinct(deleted) && Members(deleted) == Extra(files, seen, t)
      modifies this`files, this`dirs
      ensures gone <= |deleted| && (gone < |deleted| ==> fault.Some? && fault.value < |deleted|)
      ensures gone < |deleted| ==>
              && Layout(files, dirs) && Grows(Moment(old(files), old(dirs)), Moment(files, dirs))
              && PartlyEdited(old(files), files, seen, t)
      ensures gone == |deleted| ==> Progress(old(files), old(dirs), seen, t, {}, files, dirs)
    {
      ghost var files0, dirs0 := files, dirs;
      assert forall p | p in deleted :: p in Members(deleted);
      gone := DeleteAll(deleted, fault);
      if gone < |deleted| {
        assert forall p | p in deleted[..gone] :: p in deleted;
        EmptiedGives(files0, dirs0, seen, t, Members(deleted[..gone]), files, dirs);
      } else {
        assert deleted[..gone] == deleted;
        WriteStarts(files0, dirs0, seen, t, files, dirs);
      }
    }

    /** The writing half of the edit. */
    method WriteChanged(t: Checkpoint, fault: Option<nat>, restored: seq<Path>, ghost before: Moment)
      returns (ok: bool)
      requires Layout(before.files, before.dirs) && ValidTarget(t) && Distinct(restored)
      requires Members(restored) == Changed(before.files, SeenAt(see, before), t)
      requires Progress(before.files, before.dirs, SeenAt(see, before), t, {}, files, dirs)
      modifies this`files, this`dirs
      ensures Layout(files, dirs) && Grows(before, Moment(files, dirs))
      ensures PartlyEdited(before.files, files, SeenAt(see, before), t)
      ensures ok ==> Moment(files, dirs) == AfterEdit(see, before, t)
      ensures fault.None? || fault.value >= |restored| ==>
              (ok <==> !ObstructedFrom(see, before, t)) && (ok || Lacks(files, t))
    {
      ghost var files0, dirs0, seen := before.files, before.dirs, SeenAt(see, before);
      assert forall p | p in restored :: p in Members(restored);
      var written := WriteAll(restored, t, fault, files0, dirs0, seen);
      assert forall p | p in restored[..written] :: p in restored;
      NotYet(restored, written);
      ProgressGives(files0, dirs0, seen, t, Members(restored[..written]), files, dirs);
      ok := written == |restored|;
      if ok {
        assert restored[..written] == restored;
        CompleteEdit(files0, dirs0, seen, t, files, dirs);
      } else if fault.None? || fault.value >= |restored| {
        assert restored[written] in Changed(files0, seen, t);
        ObstructedMissing(files0, dirs0, seen, t, Members(restored[..written]), files, restored[written]);
      }
    }

    /** Anchor, restore, compare, and put the anchor back when that went wrong; `middle` is before any rollback. */
    method Restore(t: Checkpoint, fault: Option<nat>, rollbackFault: Option<nat>)
      returns (r: RestoreResult, ghost middle: Moment)
      requires Layout(files, dirs) && ValidTarget(t)
      modifies this`files, this`dirs
      ensures Layout(files, dirs) && (!r.Unchanged? ==> ValidTarget(r.anchor))
      ensures Outcome(see, Moment(old(files), old(dirs)), t, fault, rollbackFault, r, middle, Moment(files, dirs))
    {
      ghost var before := Moment(files, dirs);
      middle := before;
      var current := Stage();
      if Matches(current, t) {
        return Unchanged, middle;
      }
      CaptureValid(files, dirs, Seen());
      var ok := RestoreTree(t, fault);
      middle := Moment(files, dirs);
      if ok {
        var final := Stage();
        if Matches(final, t) {
          return Restored(current), middle;
        }
      }
      var rolledBack := RollBack(current, before, rollbackFault);
      r := Failed(current, rolledBack);
    }

    /** Puts the anchor back, and reports by comparing stages whether that worked. */
    method RollBack(anchor: Checkpoint, ghost before: Moment, fault: Option<nat>) returns (rolledBack: bool)
      requires Layout(before.files, before.dirs) && Layout(files, dirs) && anchor == StageOf(see, before)
      modifies this`files, this`dirs
      ensures Layout(files, dirs)
      ensures Undone(see, Moment(old(files), old(dirs)), anchor, fault, rolledBack, Moment(files, dirs))
    {
      CaptureValid(before.files, before.dirs, SeenAt(see, before));
      var back := RestoreTree(anchor, fault);
      var after := Stage();
      rolledBack := after == anchor;
    }

    /** The tree and manifest of the current workspace, file by file. */
    method Stage() returns (t: Checkpoint)
      ensures t == Capture(files, Seen())
    {
      var list := Listing(Seen());
      t := Checkpoint(map[], map[]);
      assert Members(list[..0]) == {};
      for i := 0 to |list|
        invariant Staging(files, Members(list[..i]), t)
      {
        MembersGrow(list, i);
        var p := list[i];
        assert p in Members(list);
        StageOne(files, Members(list[..i]), t, p);
        t := Checkpoint(t.entries[p := EntryOf(files[p])], t.modes[p := ModeOf(files[p])]);
      }
      assert list[..|list|] == list;
      Staged(files, Seen(), t);
    }

    /** A restore and, if it completed, the restore of its anchor. */
    method RestoreThenUndo(t: Checkpoint) returns (first: RestoreResult, second: RestoreResult, ghost trip: Trip)
      requires Layout(files, dirs) && ValidTarget(t)
      modifies this`files, this`dirs
      ensures ThereAndBack(see, t, first, second, trip)
      ensures trip.before == Moment(old(files), old(dirs)) && trip.after == Moment(files, dirs)
    {
      ghost var before := Moment(files, dirs);
      ghost var middle;
      first, middle := Restore(t, None, None);
      ghost var there := Moment(files, dirs);
      trip, second := Trip(before, middle, there, there, there), Unchanged;
      if first.Restored? {
        ghost var later;
        second, later := Restore(first.anchor, None, None);
        trip := Trip(before, middle, there, later, Moment(files, dirs));
      }
    }
  }

  /** `path` and its ancestors, the root left out. */
  ghost function UpTo(path: Path): set<Path> {
    set k | 0 < k <= |path| :: path[..k]
  }

  lemma UpToIs(path: Path, d: Path)
    ensures d in UpTo(path) <==> d != [] && d <= path
  {
    if d != [] && d <= path {
      assert d == path[..|d|];
    }
  }

  lemma UpToParent(path: Path)
    requires path != []
    ensures UpTo(path) == UpTo(path[..|path| - 1]) + {path} && path !in UpTo(path[..|path| - 1])
  {
    var parent := path[..|path| - 1];
    assert forall k | 0 < k <= |parent| :: parent[..k] == path[..k];
    assert path[..|path|] == path;
  }

  lemma PruneEntry(before: map<Path, Node>, files: map<Path, Node>, dirs: set<Path>, spine: set<Path>,
                   gone: Path, parent: Path)
    requires gone != [] && gone in before && files == before - {gone} && Spanned(before, dirs, spine)
    requires parent == gone[..|gone| - 1]
    ensures forall d :: d in dirs <==> d in spine || (d != [] && FileBelow(files, d)) || d in UpTo(parent)
  {
    forall d ensures d != [] && FileBelow(before, d) <==> (d != [] && FileBelow(files, d)) || d in UpTo(parent) {
      UpToIs(parent, d);
      if d != [] && d <= parent {
        assert d < gone;
      }
      if f :| f in before && d < f {
        if f != gone {
          assert f in files;
        }
      }
    }
  }

  lemma ParentKept(files: map<Path, Node>, dirs: set<Path>, spine: set<Path>, gone: Path, parent: Path)
    requires Closed(spine) && parent != [] && parent < gone && HasChild(files, dirs, parent)
    requires forall d :: d in dirs <==> d in spine || (d != [] && FileBelow(files, d)) || d in UpTo(parent)
    ensures Spanned(files, dirs, spine)
  {
    forall d | d in UpTo(parent) ensures d in spine || (d != [] && FileBelow(files, d)) {
      UpToIs(parent, d);
      if x :| x in files && parent < x && |x| == |parent| + 1 {
        assert d < x;
      } else {
        var x :| x in dirs && parent < x && |x| == |parent| + 1;
        if x in spine {
          assert d < x;
        } else {
          var f :| f in files && x < f;
          assert d < f;
        }
      }
    }
  }

  lemma ParentEmpty(before: map<Path, Node>, files: map<Path, Node>, dirs: set<Path>, spine: set<Path>,
                    gone: Path, parent: Path)
    requires Closed(spine) && parent != [] && parent < gone && !HasChild(files, dirs, parent)
    requires forall d :: d in dirs <==> d in spine || (d != [] && FileBelow(files, d)) || d in UpTo(parent)
    requires Sidesteps(spine, gone)
    ensures parent !in spine && !FileBelow(files, parent)
  {
    forall x, d | x in dirs && d < x && d != [] ensures d in dirs {
      UpToIs(parent, x);
      UpToIs(parent, d);
      if x !in spine && !(x <= parent) {
        var f :| f in files && x < f;
        assert d < f;
      }
    }
    if f :| f in files && parent < f {
      forall d | d < f && d != [] ensures d in dirs { }
      DescendantHasChild(files, dirs, parent, f);
    }
    if parent in spine {
      var h :| h in spine && parent < h && !(h < gone);
      DescendantHasChild(files, dirs, parent, h);
    }
  }

  lemma DescendantHasChild(files: map<Path, Node>, dirs: set<Path>, d: Path, x: Path)
    requires forall y, a | y in dirs && a < y && a != [] :: a in dirs
    requires forall a | a < x && a != [] :: a in dirs
    requires (x in files || x in dirs) && d < x
    ensures HasChild(files, dirs, d)
  {
    var child := x[..|d| + 1];
    assert d < child;
    if child != x {
      assert child < x && child in dirs;
    }
  }

  lemma AboveFile(files: map<Path, Node>, dirs: set<Path>, before: set<Path>, spine: set<Path>, prefix: Path,
                  file: Path)
    requires Spanned(files, before, spine) && file in files && prefix < file && dirs == before + UpTo(prefix)
    ensures dirs == before
  {
    forall d | d in UpTo(prefix) ensures d in before {
      UpToIs(prefix, d);
      assert d < file;
    }
  }

  lemma NothingAbove(files: map<Path, Node>, path: Path)
    requires forall j | 0 < j < |path| :: path[..j] !in files
    ensures forall q | q in files && q < path :: q == []
  {
    forall q | q in files && q < path ensures q == [] {
      assert q == path[..|q|];
    }
  }

  lemma PathWasDirectory(before: set<Path>, path: Path)
    requires path != []
    ensures path in before + UpTo(path[..|path| - 1]) ==> path in before
  {
    UpToParent(path);
  }

  lemma SpannedUpTo(files: map<Path, Node>, dirs: set<Path>, spine: set<Path>, path: Path)
    requires Spanned(files, dirs, spine) && Closed(spine) && path in dirs
    ensures UpTo(path) <= dirs
  {
    forall d | d in UpTo(path) ensures d in dirs {
      UpToIs(path, d);
      if d != path {
        assert d < path;
        if path in spine {
          assert d in spine;
        } else {
          var f :| f in files && path < f;
          assert d < f;
        }
      }
    }
  }

  lemma WriteSpans(files: map<Path, Node>, before: set<Path>, spine: set<Path>, path: Path, node: Node, dirs: set<Path>)
    requires Spanned(files, before, spine) && Closed(spine) && path != []
    requires dirs == before + UpTo(path[..|path| - 1]) - {path}
    requires path in before ==> !HasChild(files, before + UpTo(path[..|path| - 1]), path)
    ensures Spanned(files[path := node], dirs, spine - {path})
  {
    var after := files[path := node];
    forall d | d in dirs ensures d in spine - {path} || (d != [] && FileBelow(after, d)) {
      UpToIs(path[..|path| - 1], d);
      UpToParent(path);
      if d in UpTo(path[..|path| - 1]) {
        assert d < path && path in after;
      } else if d !in spine {
        var f :| f in files && d < f;
        assert f in after;
      }
    }
    forall d | d in spine - {path} || (d != [] && FileBelow(after, d)) ensures d in dirs {
      UpToIs(path[..|path| - 1], d);
      if f :| f in after && d < f && f != path {
        assert f in files && FileBelow(files, d);
        if d == path {
          BelowIsChild(files, before, spine, path, f, UpTo(path[..|path| - 1]));
        }
      } else if d !in spine {
        assert d < path && d <= path[..|path| - 1];
      }
    }
  }

  lemma BelowIsChild(files: map<Path, Node>, dirs: set<Path>, spine: set<Path>, path: Path, f: Path,
                     more: set<Path>)
    requires Spanned(files, dirs, spine) && path != [] && f in files && path < f
    ensures HasChild(files, dirs + more, path)
  {
    var child := f[..|path| + 1];
    assert path < child;
    if child != f {
      assert child < f && child in dirs;
    }
  }

  // ----- Deleting and writing keep the layout

  lemma DeletionApart(before: map<Path, Node>, beforeDirs: set<Path>, files: map<Path, Node>, dirs: set<Path>,
                      spine: set<Path>)
    requires Layout(before, beforeDirs) && Spanned(before, beforeDirs, spine) && Spanned(files, dirs, spine)
    requires files.Keys <= before.Keys
    ensures forall f | f in files :: f !in dirs
  {
    forall f | f in files ensures f !in dirs {
      assert f in before && f !in beforeDirs;
      forall g | g in files ensures !(f < g) {
        assert g in before;
      }
    }
  }

  lemma WriteApart(before: map<Path, Node>, beforeDirs: set<Path>, files: map<Path, Node>, dirs: set<Path>,
                   spine: set<Path>, path: Path)
    requires Layout(before, beforeDirs) && Spanned(before, beforeDirs, spine) && Spanned(files, dirs, spine - {path})
    requires files.Keys == before.Keys + {path} && path !in dirs && !WriteBlocked(before, beforeDirs, path)
    ensures forall f | f in files :: f !in dirs
  {
    forall f | f in files && f != path ensures f !in dirs {
      assert f in before && f !in beforeDirs && f !in spine;
      forall g | g in files ensures !(f < g) {
        assert g == path || g in before;
      }
    }
  }

  lemma StaysClosed(files0: map<Path, Node>, dirs0: set<Path>, seen: set<Path>, spine: set<Path>, path: Path)
    requires Closed(spine) && spine <= HollowSpine(files0, dirs0) && !ObstructedAt(files0, dirs0, seen, path)
    ensures Closed(spine - {path})
  {
    forall x | x in spine ensures !(path < x) {
      var h :| h in dirs0 && x <= h && Hollow(files0, dirs0, h);
      assert !(path < h);
    }
  }

  // ----- A write is stopped exactly by what the snapshot does not see

  lemma BlockedIsObstructed(files0: map<Path, Node>, dirs0: set<Path>, seen: set<Path>, t: Checkpoint,
                            written: set<Path>, files: map<Path, Node>, dirs: set<Path>, p: Path)
    requires Layout(files0, dirs0) && ValidTarget(t) && Underway(files0, seen, t, written, files)
    requires Layout(files, dirs) && Spanned(files, dirs, HollowSpine(files0, dirs0) - written)
    requires p in t.entries && p !in written
    ensures WriteBlocked(files, dirs, p) <==> ObstructedAt(files0, dirs0, seen, p)
  {
    if WriteBlocked(files, dirs, p) {
      BlockedObstructs(files0, dirs0, seen, t, written, files, dirs, p);
    }
    if ObstructedAt(files0, dirs0, seen, p) {
      ObstructionBlocks(files0, dirs0, seen, t, written, files, dirs, p);
    }
  }

  lemma OtherIsUnobserved(files0: map<Path, Node>, seen: set<Path>, t: Checkpoint,
                          written: set<Path>, files: map<Path, Node>, p: Path, q: Path)
    requires ValidTarget(t) && Underway(files0, seen, t, written, files)
    requires p in t.entries && q in files && (q < p || p < q)
    ensures q in files0 && q !in seen
  {
  }

  lemma BlockedObstructs(files0: map<Path, Node>, dirs0: set<Path>, seen: set<Path>, t: Checkpoint,
                         written: set<Path>, files: map<Path, Node>, dirs: set<Path>, p: Path)
    requires ValidTarget(t) && Underway(files0, seen, t, written, files)
    requires Spanned(files, dirs, HollowSpine(files0, dirs0) - written)
    requires p in t.entries && WriteBlocked(files, dirs, p)
    ensures ObstructedAt(files0, dirs0, seen, p)
  {
    if q :| q in files && q < p {
      OtherIsUnobserved(files0, seen, t, written, files, p, q);
    } else if x :| x in files && p < x && |x| == |p| + 1 {
      OtherIsUnobserved(files0, seen, t, written, files, p, x);
    } else {
      var x :| x in dirs && p < x && |x| == |p| + 1;
      if f :| f in files && x < f {
        OtherIsUnobserved(files0, seen, t, written, files, p, f);
      } else {
        var h :| h in dirs0 && x <= h && Hollow(files0, dirs0, h);
        assert p < h;
      }
    }
  }

  lemma ObstructionBlocks(files0: map<Path, Node>, dirs0: set<Path>, seen: set<Path>, t: Checkpoint,
                          written: set<Path>, files: map<Path, Node>, dirs: set<Path>, p: Path)
    requires Layout(files0, dirs0) && ValidTarget(t) && Underway(files0, seen, t, written, files)
    requires Layout(files, dirs) && Spanned(files, dirs, HollowSpine(files0, dirs0) - written)
    requires p in t.entries && p !in written && ObstructedAt(files0, dirs0, seen, p)
    ensures WriteBlocked(files, dirs, p)
  {
    if u :| u in files0 && u !in seen && (u < p || p < u) {
      assert u in files;
      if p < u {
        DescendantHasChild(files, dirs, p, u);
        assert FileBelow(files, p);
      }
    } else {
      var h :| h in dirs0 && p < h && Hollow(files0, dirs0, h);
      var spine := HollowSpine(files0, dirs0);
      SpineClosed(files0, dirs0);
      assert h in spine && h !in written;
      assert p in spine;
      DescendantHasChild(files, dirs, p, h);
    }
  }

  /** A path that is obstructed and not written has no file. */
  lemma ObstructedMissing(files0: map<Path, Node>, dirs0: set<Path>, seen: set<Path>, t: Checkpoint, written: set<Path>,
                          files: map<Path, Node>, p: Path)
    requires Layout(files0, dirs0) && Underway(files0, seen, t, written, files)
    requires p in t.entries && p !in written && ObstructedAt(files0, dirs0, seen, p)
    ensures Lacks(files, t)
  {
    assert p !in files;
  }

  lemma CompleteEdit(files0: map<Path, Node>, dirs0: set<Path>, seen: set<Path>, t: Checkpoint, files: map<Path, Node>,
                     dirs: set<Path>)
    requires Progress(files0, dirs0, seen, t, Changed(files0, seen, t), files, dirs)
    ensures files == Edited(files0, seen, t)
    ensures dirs == HollowSpine(files0, dirs0) - Changed(files0, seen, t) + ParentsOf(files)
  {
    UnderwayEdits(files0, seen, t, files);
    SpannedDirs(files, dirs, HollowSpine(files0, dirs0) - Changed(files0, seen, t));
  }

  lemma UnderwayEdits(files0: map<Path, Node>, seen: set<Path>, t: Checkpoint, files: map<Path, Node>)
    requires Underway(files0, seen, t, Changed(files0, seen, t), files)
    ensures files == Edited(files0, seen, t)
  {
    forall p | p in files0 && p in t.entries && p !in Changed(files0, seen, t) ensures files0[p] == Materialize(t, p) {
      assert EntryOf(files0[p]) == t.entries[p] && ExpectedMode(t, p) == ModeOf(files0[p]);
    }
    var edited := Edited(files0, seen, t);
    forall p ensures (p in files <==> p in edited) && (p in files ==> files[p] == edited[p]) {
    }
  }

  // ----- Comparing trees

  /** A materialized entry stages as itself. */
  lemma MaterializeStages(t: Checkpoint, p: Path)
    requires ValidTarget(t) && p in t.entries
    ensures EntryOf(Materialize(t, p)) == t.entries[p] && (p in t.modes ==> ModeOf(Materialize(t, p)) == t.modes[p])
  {
    DefaultModes();
  }

  lemma CaptureAt(files: map<Path, Node>, seen: set<Path>)
    requires seen <= files.Keys
    ensures Capture(files, seen).entries.Keys == seen == Capture(files, seen).modes.Keys
    ensures forall p | p in seen ::
              Capture(files, seen).entries[p] == EntryOf(files[p]) && Capture(files, seen).modes[p] == ModeOf(files[p])
  {
  }

  /** The final comparison passes exactly when the observed files are then the target's. */
  lemma EditedMatches(files0: map<Path, Node>, seen0: set<Path>, t: Checkpoint, seen: set<Path>)
    requires ValidTarget(t) && seen <= Edited(files0, seen0, t).Keys
    ensures Matches(Capture(Edited(files0, seen0, t), seen), t) <==> seen == t.entries.Keys
  {
    var files := Edited(files0, seen0, t);
    var c := Capture(files, seen);
    CaptureAt(files, seen);
    forall p | p in seen && p in t.entries
      ensures c.entries[p] == t.entries[p] && (p in t.modes ==> c.modes[p] == t.modes[p])
    {
      MaterializeStages(t, p);
    }
    MatchesByKeys(c, t);
  }

  lemma MatchesByKeys(c: Checkpoint, t: Checkpoint)
    requires c.modes.Keys == c.entries.Keys && (t.modes == map[] || t.modes.Keys == t.entries.Keys)
    requires forall p | p in c.entries && p in t.entries ::
               c.entries[p] == t.entries[p] && (p in t.modes ==> c.modes[p] == t.modes[p])
    ensures Matches(c, t) <==> c.entries.Keys == t.entries.Keys
  {
    if c.entries.Keys == t.entries.Keys {
      assert c.entries == t.entries;
      assert t.modes != map[] ==> c.modes == t.modes;
    }
  }

  lemma DefaultModes()
    ensures Executable(EXECUTABLE_MODE) && !Executable(PLAIN_MODE)
  {
  }

  lemma NodeByParts(a: Node, b: Node)
    ensures a == b <==> EntryOf(a) == EntryOf(b) && ModeOf(a) == ModeOf(b)
  {
  }

  /** Stages are equal exactly when they observe the same paths and these hold the same. */
  lemma CaptureDecides(before: map<Path, Node>, seen0: set<Path>, files: map<Path, Node>, seen: set<Path>)
    requires seen0 <= before.Keys && seen <= files.Keys
    ensures Capture(files, seen) == Capture(before, seen0) <==> seen == seen0 && SameWithin(before, files, seen0)
  {
    var a, b := Capture(files, seen), Capture(before, seen0);
    assert a.entries.Keys == seen == a.modes.Keys && b.entries.Keys == seen0 == b.modes.Keys;
    if a == b {
      forall p | p in seen0 ensures Same(before, files, p) {
        assert a.entries[p] == b.entries[p] && a.modes[p] == b.modes[p];
        NodeByParts(files[p], before[p]);
      }
    }
  }

  lemma CaptureMaterializes(files: map<Path, Node>, seen: set<Path>, p: Path)
    requires p in seen && p in files
    ensures p in Capture(files, seen).entries && Materialize(Capture(files, seen), p) == files[p]
  {
    NodeByParts(Materialize(Capture(files, seen), p), files[p]);
  }

  // ----- What a restore and its rollback amount to, over the workspace before and the target

  /** Without a fault: complete exactly when nothing is in the way and the edited workspace shows the target's paths. */
  lemma RestoresExactly(see: View, before: Moment, t: Checkpoint, rollbackFault: Option<nat>, r: RestoreResult,
                        middle: Moment, after: Moment)
    requires ValidTarget(t) && Outcome(see, before, t, None, rollbackFault, r, middle, after) && !r.Unchanged?
    ensures r.Restored? <==>
            !ObstructedFrom(see, before, t) && SeenAt(see, AfterEdit(see, before, t)) == t.entries.Keys
    ensures !ObstructedFrom(see, before, t) ==> middle == AfterEdit(see, before, t)
  {
    EditedMatches(before.files, SeenAt(see, before), t, SeenAt(see, AfterEdit(see, before, t)));
  }

  /** Going back from `m` gives the files from before: no unobserved one changed, came into view, or is left over. */
  ghost predicate Recovers(see: View, before: Moment, m: Moment) {
    forall p | p !in SeenAt(see, before) ::
      if p in before.files then p !in SeenAt(see, m) && Same(before.files, m.files, p)
      else p in m.files ==> p in SeenAt(see, m)
  }

  /** A rollback from `m` says that it worked exactly when it did. */
  ghost predicate Truthful(see: View, before: Moment, m: Moment) {
    var anchor := StageOf(see, before);
    || ObstructedFrom(see, m, anchor)
    || (SeenAt(see, AfterEdit(see, m, anchor)) == SeenAt(see, before) <==> Recovers(see, before, m))
  }

  lemma EditedBackIs(before: map<Path, Node>, seen0: set<Path>, files: map<Path, Node>, seen: set<Path>)
    requires seen0 <= before.Keys
    ensures var back := Edited(files, seen, Capture(before, seen0));
            && (forall p :: p in back <==> p in seen0 || (p in files && p !in seen))
            && (forall p | p in back :: back[p] == if p in seen0 then before[p] else files[p])
  {
    CaptureAt(before, seen0);
    forall p | p in seen0 ensures Materialize(Capture(before, seen0), p) == before[p] {
      CaptureMaterializes(before, seen0, p);
    }
  }

  lemma RecoversExactly(see: View, before: Moment, m: Moment)
    ensures AfterEdit(see, m, StageOf(see, before)).files == before.files <==> Recovers(see, before, m)
  {
    var seen0, seen := SeenAt(see, before), SeenAt(see, m);
    var back := AfterEdit(see, m, StageOf(see, before)).files;
    EditedBackIs(before.files, seen0, m.files, seen);
    if Recovers(see, before, m) {
      forall p ensures Same(back, before.files, p) {
      }
      assert back.Keys == before.files.Keys;
    }
    if back == before.files {
      forall p | p !in seen0
        ensures if p in before.files then p !in seen && Same(before.files, m.files, p) else p in m.files ==> p in seen
      {
        assert p in back <==> p in before.files;
      }
    }
  }

  /** The stage after going back is the anchor exactly when the same paths are observed. */
  lemma StageAfterGoingBack(see: View, before: Moment, m: Moment)
    ensures var after := AfterEdit(see, m, StageOf(see, before));
            StageOf(see, after) == StageOf(see, before) <==> SeenAt(see, after) == SeenAt(see, before)
  {
    var seen0 := SeenAt(see, before);
    var after := AfterEdit(see, m, StageOf(see, before));
    EditedBackIs(before.files, seen0, m.files, SeenAt(see, m));
    CaptureDecides(before.files, seen0, after.files, SeenAt(see, after));
  }

  /** An anchor path without a file shows in the files and in the stage. */
  lemma LackingShows(see: View, before: Moment, after: Moment)
    requires Lacks(after.files, StageOf(see, before))
    ensures StageOf(see, after) != StageOf(see, before) && after.files != before.files
  {
    CaptureAt(before.files, SeenAt(see, before));
    CaptureAt(after.files, SeenAt(see, after));
  }

  /**
   A rollback without a fault, wherever the edit ended: what it reports, and whether the files are
   those from before.
   */
  lemma RollbackExactly(see: View, before: Moment, middle: Moment, rolledBack: bool, after: Moment)
    requires Undone(see, middle, StageOf(see, before), None, rolledBack, after)
    ensures var anchor := StageOf(see, before); var clear := !ObstructedFrom(see, middle, anchor);
            && (rolledBack <==> clear && SeenAt(see, AfterEdit(see, middle, anchor)) == SeenAt(see, before))
            && (after.files == before.files <==> clear && Recovers(see, before, middle))
  {
    if ObstructedFrom(see, middle, StageOf(see, before)) {
      LackingShows(see, before, after);
    } else {
      RecoversExactly(see, before, middle);
      StageAfterGoingBack(see, before, middle);
    }
  }

  /**
   When the report of a failed restore is true, without faults: a condition on where the edit ended, which is
   a function of `before` and `t` when nothing is in the way.
   */
  lemma ReportTrueExactly(see: View, before: Moment, t: Checkpoint, r: RestoreResult, middle: Moment, after: Moment)
    requires ValidTarget(t) && Outcome(see, before, t, None, None, r, middle, after) && r.Failed?
    ensures (r.rolledBack <==> after.files == before.files) <==> Truthful(see, before, middle)
    ensures !ObstructedFrom(see, before, t) ==> middle == AfterEdit(see, before, t)
  {
    RollbackExactly(see, before, middle, r.rolledBack, after);
  }

  // ----- Restoring under steady observation

  /** What is observed of the edited workspace is the whole target exactly when the target is observed. */
  lemma EditedKeeps(files0: map<Path, Node>, keep: Path -> bool, t: Checkpoint)
    ensures Kept(Edited(files0, Kept(files0, keep), t), keep) == t.entries.Keys <==> KeepsTarget(t, keep)
  {
    var files := Edited(files0, Kept(files0, keep), t);
    assert forall p | p in Kept(files, keep) :: p in t.entries;
    if KeepsTarget(t, keep) {
      assert forall p | p in t.entries :: p in files && keep(p);
    } else {
      var p :| p in t.entries && !keep(p);
      assert p !in Kept(files, keep);
    }
  }

  lemma StartIsBetween(before: Moment, seen: set<Path>, t: Checkpoint)
    requires Layout(before.files, before.dirs)
    ensures Between(before, seen, t, before)
  {
    forall d | d in before.dirs && !FileBelow(before.files, d) ensures d in HollowSpine(before.files, before.dirs) {
      assert Hollow(before.files, before.dirs, d);
    }
  }

  lemma EditIsBetween(see: View, before: Moment, t: Checkpoint, fault: Option<nat>, complete: bool, middle: Moment)
    requires EditedTowards(see, before, t, fault, complete, middle)
    ensures Between(before, SeenAt(see, before), t, middle)
  {
    forall p | p in middle.files
      ensures || (p in before.files && middle.files[p] == before.files[p])
              || (p in t.entries && middle.files[p] == Materialize(t, p))
    {
    }
  }

  lemma MiddleSteady(see: View, keep: Path -> bool, before: Moment, t: Checkpoint, fault: Option<nat>,
                     rollbackFault: Option<nat>, r: RestoreResult, middle: Moment, after: Moment)
    requires Layout(before.files, before.dirs) && Outcome(see, before, t, fault, rollbackFault, r, middle, after)
    requires Steady(see, keep, before, t)
    ensures Between(before, SeenAt(see, before), t, middle)
    ensures SeenAt(see, before) == Kept(before.files, keep) && SeenAt(see, middle) == Kept(middle.files, keep)
  {
    StartIsBetween(before, SeenAt(see, before), t);
    if !r.Unchanged? {
      EditIsBetween(see, before, t, fault, EditedTowards(see, before, t, fault, true, middle), middle);
    }
  }

  /** Of the unobserved files only the target's can be touched, and not by the rollback. */
  lemma SteadySpares(see: View, keep: Path -> bool, before: Moment, t: Checkpoint, fault: Option<nat>,
                     rollbackFault: Option<nat>, r: RestoreResult, middle: Moment, after: Moment, p: Path)
    requires Layout(before.files, before.dirs) && Outcome(see, before, t, fault, rollbackFault, r, middle, after)
    requires Steady(see, keep, before, t) && !keep(p)
    ensures Same(middle.files, after.files, p)
    ensures p !in t.entries ==> Same(before.files, after.files, p)
  {
    MiddleSteady(see, keep, before, t, fault, rollbackFault, r, middle, after);
    if r.Failed? {
      RollbackSpares(see, keep, before, middle, rollbackFault, r.rolledBack, after, p);
    }
  }

  lemma EndIsBetween(see: View, keep: Path -> bool, before: Moment, t: Checkpoint, fault: Option<nat>,
                     rollbackFault: Option<nat>, r: RestoreResult, middle: Moment, after: Moment)
    requires Layout(before.files, before.dirs) && Outcome(see, before, t, fault, rollbackFault, r, middle, after)
    requires Steady(see, keep, before, t)
    ensures Between(before, SeenAt(see, before), t, after) && SeenAt(see, after) == Kept(after.files, keep)
  {
    MiddleSteady(see, keep, before, t, fault, rollbackFault, r, middle, after);
    if r.Failed? {
      RollbackIsBetween(see, keep, before, t, middle, rollbackFault, r.rolledBack, after);
    }
  }

  lemma RollbackIsBetween(see: View, keep: Path -> bool, before: Moment, t: Checkpoint, middle: Moment,
                          fault: Option<nat>, rolledBack: bool, after: Moment)
    requires Layout(before.files, before.dirs) && Between(before, SeenAt(see, before), t, middle)
    requires Undone(see, middle, StageOf(see, before), fault, rolledBack, after)
    requires SeenAt(see, before) == Kept(before.files, keep) && SeenAt(see, middle) == Kept(middle.files, keep)
    ensures Between(before, SeenAt(see, before), t, after)
  {
    var seen0 := SeenAt(see, before);
    RollbackGrows(see, before, middle, StageOf(see, before), fault, rolledBack, after);
    forall p | p in after.files
      ensures || (p in before.files && after.files[p] == before.files[p])
              || (p in t.entries && after.files[p] == Materialize(t, p))
    {
      NodeAfterRollback(see, before, middle, fault, rolledBack, after, p);
      BetweenAt(before, seen0, t, middle, p);
    }
    forall p | p in before.files && p !in seen0 ensures p in after.files {
      BetweenAt(before, seen0, t, middle, p);
      RollbackSpares(see, keep, before, middle, fault, rolledBack, after, p);
    }
  }

  lemma RollbackSpares(see: View, keep: Path -> bool, before: Moment, middle: Moment, fault: Option<nat>,
                       rolledBack: bool, after: Moment, p: Path)
    requires Undone(see, middle, StageOf(see, before), fault, rolledBack, after) && !keep(p)
    requires SeenAt(see, before) == Kept(before.files, keep) && SeenAt(see, middle) == Kept(middle.files, keep)
    ensures Same(middle.files, after.files, p)
  {
    CaptureAt(before.files, SeenAt(see, before));
    assert p !in StageOf(see, before).entries && p !in SeenAt(see, middle);
  }

  lemma BetweenAt(before: Moment, seen: set<Path>, t: Checkpoint, m: Moment, p: Path)
    requires Between(before, seen, t, m)
    ensures p in m.files ==>
            || (p in before.files && m.files[p] == before.files[p])
            || (p in t.entries && m.files[p] == Materialize(t, p))
    ensures p in before.files && p !in seen ==> p in m.files
  {
  }

  lemma RollbackGrows(see: View, before: Moment, middle: Moment, anchor: Checkpoint, fault: Option<nat>,
                      rolledBack: bool, after: Moment)
    requires Layout(before.files, before.dirs) && Grows(before, middle)
    requires Undone(see, middle, anchor, fault, rolledBack, after)
    ensures Grows(before, after)
  {
    NoNewHollowComposes(before.files, before.dirs, middle.files, middle.dirs, after.files, after.dirs);
  }

  lemma NodeAfterRollback(see: View, before: Moment, middle: Moment, fault: Option<nat>, rolledBack: bool,
                          after: Moment,
                          p: Path)
    requires Undone(see, middle, StageOf(see, before), fault, rolledBack, after) && p in after.files
    ensures || (p in before.files && after.files[p] == before.files[p])
            || (p in middle.files && after.files[p] == middle.files[p])
  {
    var seen0 := SeenAt(see, before);
    CaptureAt(before.files, seen0);
    if p in seen0 {
      CaptureMaterializes(before.files, seen0, p);
    }
  }

  /** Without a fault: complete exactly when nothing is in the way and the whole target is observed. */
  lemma SteadyRestores(see: View, keep: Path -> bool, before: Moment, t: Checkpoint, rollbackFault: Option<nat>,
                       r: RestoreResult, middle: Moment, after: Moment)
    requires Layout(before.files, before.dirs) && ValidTarget(t)
    requires Outcome(see, before, t, None, rollbackFault, r, middle, after) && !r.Unchanged?
    requires Steady(see, keep, before, t)
    ensures r.Restored? <==> !ObstructedFrom(see, before, t) && KeepsTarget(t, keep)
  {
    MiddleSteady(see, keep, before, t, None, rollbackFault, r, middle, after);
    RestoresExactly(see, before, t, rollbackFault, r, middle, after);
    EditedKeeps(before.files, keep, t);
  }

  /** Equal stages and equal unobserved files are equal workspaces. */
  lemma SameByKept(before: map<Path, Node>, files: map<Path, Node>, keep: Path -> bool)
    ensures files == before <==>
            && Capture(files, Kept(files, keep)) == Capture(before, Kept(before, keep))
            && forall p | !keep(p) :: Same(before, files, p)
  {
    CaptureDecides(before, Kept(before, keep), files, Kept(files, keep));
    if Kept(files, keep) == Kept(before, keep) && SameWithin(before, files, Kept(before, keep))
       && forall p | !keep(p) :: Same(before, files, p) {
      forall p ensures Same(before, files, p) {
        if keep(p) {
          assert p in files <==> p in Kept(files, keep);
          assert p in before <==> p in Kept(before, keep);
        }
      }
      SameEverywhere(before, files);
    }
  }

  lemma SameEverywhere(before: map<Path, Node>, files: map<Path, Node>)
    requires forall p :: Same(before, files, p)
    ensures files == before
  {
    forall p ensures (p in files <==> p in before) && (p in files ==> files[p] == before[p]) {
      assert Same(before, files, p);
    }
    assert files.Keys == before.Keys;
  }

  /** What the rollback reports, and whether the files are those from before, whatever failed. */
  lemma SteadyReport(see: View, keep: Path -> bool, before: Moment, t: Checkpoint, fault: Option<nat>,
                     rollbackFault: Option<nat>, r: RestoreResult, middle: Moment, after: Moment)
    requires Layout(before.files, before.dirs) && Outcome(see, before, t, fault, rollbackFault, r, middle, after)
    requires Steady(see, keep, before, t) && r.Failed?
    ensures after.files == before.files <==>
            r.rolledBack && forall p | p in t.entries && !keep(p) :: Same(before.files, middle.files, p)
  {
    MiddleSteady(see, keep, before, t, fault, rollbackFault, r, middle, after);
    EndIsBetween(see, keep, before, t, fault, rollbackFault, r, middle, after);
    forall p | !keep(p)
      ensures Same(middle.files, after.files, p) && (p !in t.entries ==> Same(before.files, after.files, p))
    {
      SteadySpares(see, keep, before, t, fault, rollbackFault, r, middle, after, p);
    }
    SameByKept(before.files, after.files, keep);
  }

  /** Whatever fails and wherever: a target whose unobserved paths are settled gets a true report. */
  lemma SettledReport(see: View, keep: Path -> bool, before: Moment, t: Checkpoint, fault: Option<nat>,
                      rollbackFault: Option<nat>, r: RestoreResult, middle: Moment, after: Moment)
    requires Layout(before.files, before.dirs) && Outcome(see, before, t, fault, rollbackFault, r, middle, after)
    requires Steady(see, keep, before, t) && r.Failed? && Settled(before.files, t, keep)
    ensures r.rolledBack <==> after.files == before.files
  {
    SteadyReport(see, keep, before, t, fault, rollbackFault, r, middle, after);
    MiddleSteady(see, keep, before, t, fault, rollbackFault, r, middle, after);
    forall p | p in t.entries && !keep(p) ensures Same(before.files, middle.files, p) {
      assert p in middle.files;
    }
  }

  /**
   Without a fault and with nothing in the way of the edit, the files come back exactly when every
   unobserved target path was settled and the anchor is not obstructed; the report is true exactly
   when it was settled, or the anchor is obstructed.
   */
  lemma SteadyFailure(see: View, keep: Path -> bool, before: Moment, t: Checkpoint, r: RestoreResult, middle: Moment,
                      after: Moment)
    requires Layout(before.files, before.dirs) && ValidTarget(t)
    requires Outcome(see, before, t, None, None, r, middle, after) && r.Failed?
    requires Steady(see, keep, before, t) && !ObstructedFrom(see, before, t)
    ensures var blocked := ObstructedFrom(see, AfterEdit(see, before, t), StageOf(see, before));
            && (r.rolledBack <==> !blocked)
            && (after.files == before.files <==> Settled(before.files, t, keep) && !blocked)
            && ((r.rolledBack <==> after.files == before.files) <==> Settled(before.files, t, keep) || blocked)
  {
    MiddleSteady(see, keep, before, t, None, None, r, middle, after);
    RestoresExactly(see, before, t, None, r, middle, after);
    SteadyReport(see, keep, before, t, None, None, r, middle, after);
    RollbackExactly(see, before, middle, r.rolledBack, after);
    EndIsBetween(see, keep, before, t, None, None, r, middle, after);
    if !ObstructedFrom(see, middle, StageOf(see, before)) {
      StageAfterGoingBack(see, before, middle);
      EditedBackSteadily(before.files, keep, middle.files);
    }
    SettledAfterEdit(before.files, keep, t, middle.files);
  }

  lemma SettledAfterEdit(before: map<Path, Node>, keep: Path -> bool, t: Checkpoint, files: map<Path, Node>)
    requires files == Edited(before, Kept(before, keep), t)
    ensures (forall p | p in t.entries && !keep(p) :: Same(before, files, p)) <==> Settled(before, t, keep)
  {
    assert forall p | p in t.entries :: p in files && files[p] == Materialize(t, p);
  }

  /** A rollback without a fault succeeds unless unobserved target paths stand in the way of observed files. */
  lemma SteadyRollback(see: View, keep: Path -> bool, before: Moment, t: Checkpoint, fault: Option<nat>,
                       r: RestoreResult, middle: Moment, after: Moment)
    requires Layout(before.files, before.dirs)
    requires Outcome(see, before, t, fault, None, r, middle, after) && r.Failed?
    requires Steady(see, keep, before, t) && Clear(before.files, t, keep)
    ensures r.rolledBack
  {
    MiddleSteady(see, keep, before, t, fault, None, r, middle, after);
    EndIsBetween(see, keep, before, t, fault, None, r, middle, after);
    MiddleEdited(see, before, t, fault, r, middle, after);
    AnchorUnobstructed(before.files, before.dirs, t, keep, middle.files, middle.dirs);
    EditedBackSteadily(before.files, keep, middle.files);
  }

  lemma MiddleEdited(see: View, before: Moment, t: Checkpoint, fault: Option<nat>, r: RestoreResult, middle: Moment,
                     after: Moment)
    requires Outcome(see, before, t, fault, None, r, middle, after) && r.Failed?
    ensures PartlyEdited(before.files, middle.files, SeenAt(see, before), t) && Grows(before, middle)
    ensures r.anchor == StageOf(see, before)
    ensures !ObstructedFrom(see, middle, r.anchor) ==> after == AfterEdit(see, middle, r.anchor)
  {
  }

  /** Nothing stands in the way of the anchor, unless unobserved files of the target do. */
  lemma AnchorUnobstructed(files0: map<Path, Node>, dirs0: set<Path>, t: Checkpoint, keep: Path -> bool,
                           files: map<Path, Node>, dirs: set<Path>)
    requires Layout(files0, dirs0) && Layout(files, dirs) && Clear(files0, t, keep)
    requires PartlyEdited(files0, files, Kept(files0, keep), t) && NoNewHollow(files, dirs, HollowSpine(files0, dirs0))
    ensures !Obstructed(files, dirs, Kept(files, keep), Capture(files0, Kept(files0, keep)))
  {
    forall p | p in Changed(files, Kept(files, keep), Capture(files0, Kept(files0, keep)))
      ensures !ObstructedAt(files, dirs, Kept(files, keep), p)
    {
      assert p in files0 && keep(p);
      NotObstructedAt(files0, dirs0, t, keep, files, dirs, p);
    }
  }

  lemma NotObstructedAt(files0: map<Path, Node>, dirs0: set<Path>, t: Checkpoint, keep: Path -> bool,
                        files: map<Path, Node>, dirs: set<Path>, p: Path)
    requires Layout(files0, dirs0) && Clear(files0, t, keep) && p in files0 && keep(p)
    requires PartlyEdited(files0, files, Kept(files0, keep), t) && NoNewHollow(files, dirs, HollowSpine(files0, dirs0))
    ensures !ObstructedAt(files, dirs, Kept(files, keep), p)
  {
    forall u | u in files && u !in Kept(files, keep) ensures !(u < p || p < u) {
      UnobservedApart(files0, dirs0, t, keep, files, u, p);
    }
    NoHollowBelow(files0, dirs0, files, dirs, p);
  }

  lemma UnobservedApart(files0: map<Path, Node>, dirs0: set<Path>, t: Checkpoint, keep: Path -> bool,
                        files: map<Path, Node>, u: Path, p: Path)
    requires Layout(files0, dirs0) && Clear(files0, t, keep) && PartlyEdited(files0, files, Kept(files0, keep), t)
    requires u in files && !keep(u) && p in files0 && keep(p)
    ensures !(u < p || p < u)
  {
    assert Same(files0, files, u) || u in t.entries;
  }

  /** Where there was a file, there is no directory without files below. */
  lemma NoHollowBelow(files0: map<Path, Node>, dirs0: set<Path>, files: map<Path, Node>, dirs: set<Path>, p: Path)
    requires Layout(files0, dirs0) && NoNewHollow(files, dirs, HollowSpine(files0, dirs0)) && p in files0
    ensures forall h | h in dirs && Hollow(files, dirs, h) :: !(p < h)
  {
    forall h | h in dirs && Hollow(files, dirs, h) ensures !(p < h) {
      assert h in dirs0;
    }
  }

  lemma EditedBackSteadily(files0: map<Path, Node>, keep: Path -> bool, middle: map<Path, Node>)
    ensures var anchor := Capture(files0, Kept(files0, keep));
            var files := Edited(middle, Kept(middle, keep), anchor);
            Capture(files, Kept(files, keep)) == anchor
  {
    var kept := Kept(files0, keep);
    var files := Edited(middle, Kept(middle, keep), Capture(files0, kept));
    CaptureAt(files0, kept);
    assert Kept(files, keep) == kept;
    forall p | p in kept ensures Same(files0, files, p) {
      CaptureMaterializes(files0, kept, p);
    }
    CaptureDecides(files0, kept, files, kept);
  }

  // ----- Undoing a completed restore

  lemma UndoUnobstructed(files0: map<Path, Node>, dirs0: set<Path>, seen0: set<Path>, t: Checkpoint,
                         files: map<Path, Node>, dirs: set<Path>)
    requires Layout(files0, dirs0) && Layout(files, dirs) && seen0 <= files0.Keys
    requires files == Edited(files0, seen0, t) && NoNewHollow(files, dirs, HollowSpine(files0, dirs0))
    ensures !Obstructed(files, dirs, t.entries.Keys, Capture(files0, seen0))
  {
    forall p | p in Changed(files, t.entries.Keys, Capture(files0, seen0))
      ensures !ObstructedAt(files, dirs, t.entries.Keys, p)
    {
      AnchorPaths(files0, seen0, p);
      UndoUnobstructedAt(files0, dirs0, t.entries.Keys, files, dirs, p);
    }
  }

  lemma AnchorPaths(files: map<Path, Node>, seen: set<Path>, p: Path)
    requires seen <= files.Keys && p in Capture(files, seen).entries
    ensures p in files
  {
  }

  lemma UndoUnobstructedAt(files0: map<Path, Node>, dirs0: set<Path>, wanted: set<Path>,
                           files: map<Path, Node>, dirs: set<Path>, p: Path)
    requires Layout(files0, dirs0) && Layout(files, dirs) && files.Keys <= files0.Keys + wanted && p in files0
    requires NoNewHollow(files, dirs, HollowSpine(files0, dirs0))
    ensures !ObstructedAt(files, dirs, wanted, p)
  {
    forall u | u in files && u !in wanted ensures !(u < p || p < u) {
      FilesApart(files0, dirs0, u, p);
    }
    NoHollowBelow(files0, dirs0, files, dirs, p);
  }

  lemma FilesApart(files: map<Path, Node>, dirs: set<Path>, u: Path, p: Path)
    requires Layout(files, dirs) && u in files && p in files
    ensures !(u < p || p < u)
  {
  }

  /** There and back: what is lost are the unobserved files that the target replaced. */
  lemma EditedBack(files0: map<Path, Node>, seen0: set<Path>, t: Checkpoint)
    requires seen0 <= files0.Keys
    ensures Edited(Edited(files0, seen0, t), t.entries.Keys, Capture(files0, seen0))
         == files0 - (t.entries.Keys - seen0)
  {
    var there := Edited(files0, seen0, t);
    var back := Edited(there, t.entries.Keys, Capture(files0, seen0));
    EditedBackIs(files0, seen0, there, t.entries.Keys);
    forall p ensures Same(files0 - (t.entries.Keys - seen0), back, p) {
    }
    SameEverywhere(files0 - (t.entries.Keys - seen0), back);
  }

  /** Restoring the anchor of a completed restore gives back every file, but for unobserved ones the target replaced. */
  lemma UndoGivesBack(see: View, t: Checkpoint, first: RestoreResult, second: RestoreResult, trip: Trip)
    requires ThereAndBack(see, t, first, second, trip) && ValidTarget(t) && first.Restored? && !second.Failed?
    ensures trip.after.files == trip.before.files - (t.entries.Keys - SeenAt(see, trip.before))
  {
    var files0, seen0 := trip.before.files, SeenAt(see, trip.before);
    EditedMatches(files0, seen0, t, SeenAt(see, trip.there));
    EditedBack(files0, seen0, t);
    if second.Unchanged? {
      UndoUnchanged(files0, seen0, trip.there.files, t);
    }
  }

  /** Under steady observation the undo cannot fail and gives back every file. */
  lemma UndoSteadily(see: View, keep: Path -> bool, t: Checkpoint, first: RestoreResult, second: RestoreResult,
                     trip: Trip)
    requires ThereAndBack(see, t, first, second, trip) && ValidTarget(t) && first.Restored?
    requires Steady(see, keep, trip.before, t)
    ensures !second.Failed? && trip.after.files == trip.before.files
  {
    var before, there := trip.before, trip.there;
    MiddleSteady(see, keep, before, t, None, None, first, trip.middle, there);
    TargetKept(see, keep, before, t, first, trip.middle, there);
    CompletedUnobstructed(see, before, t, first, trip.middle, there);
    UndoCompletes(see, keep, before, t, first, there, second, trip.later, trip.after);
    UndoGivesBack(see, t, first, second, trip);
    NothingReplaced(before.files, keep, t);
  }

  lemma CompletedUnobstructed(see: View, before: Moment, t: Checkpoint, r: RestoreResult, middle: Moment, there: Moment)
    requires Layout(before.files, before.dirs) && ValidTarget(t)
    requires Outcome(see, before, t, None, None, r, middle, there) && r.Restored?
    requires SeenAt(see, there) == t.entries.Keys
    ensures r.anchor == StageOf(see, before) && !ObstructedFrom(see, there, r.anchor)
  {
    UndoUnobstructed(before.files, before.dirs, SeenAt(see, before), t, there.files, there.dirs);
  }

  lemma NothingReplaced(files: map<Path, Node>, keep: Path -> bool, t: Checkpoint)
    requires KeepsTarget(t, keep)
    ensures files - (t.entries.Keys - Kept(files, keep)) == files
  {
  }

  lemma TargetKept(see: View, keep: Path -> bool, before: Moment, t: Checkpoint, r: RestoreResult,
                   middle: Moment, after: Moment)
    requires Outcome(see, before, t, None, None, r, middle, after) && ValidTarget(t) && r.Restored?
    requires SeenAt(see, before) == Kept(before.files, keep) && SeenAt(see, after) == Kept(after.files, keep)
    ensures KeepsTarget(t, keep) && SeenAt(see, after) == t.entries.Keys
  {
    EditedMatches(before.files, SeenAt(see, before), t, SeenAt(see, after));
    EditedKeeps(before.files, keep, t);
  }

  lemma UndoCompletes(see: View, keep: Path -> bool, before: Moment, t: Checkpoint, first: RestoreResult, there: Moment,
                      second: RestoreResult, later: Moment, after: Moment)
    requires Layout(before.files, before.dirs) && Steady(see, keep, before, t) && first.Restored?
    requires Between(before, SeenAt(see, before), t, there) && first.anchor == StageOf(see, before)
    requires Outcome(see, there, first.anchor, None, None, second, later, after)
    requires !ObstructedFrom(see, there, first.anchor)
    ensures !second.Failed?
  {
    StartIsBetween(before, SeenAt(see, before), t);
    CaptureValid(before.files, before.dirs, SeenAt(see, before));
    if !second.Unchanged? {
      var anchor, end := first.anchor, AfterEdit(see, there, first.anchor);
      RestoresExactly(see, there, anchor, None, second, later, after);
      BackIsBetween(see, keep, before, t, there, end, later);
      CaptureAt(before.files, SeenAt(see, before));
      AnchorKept(before.files, keep);
      EditedKeeps(there.files, keep, anchor);
    }
  }

  lemma BackIsBetween(see: View, keep: Path -> bool, before: Moment, t: Checkpoint, there: Moment, end: Moment,
                      later: Moment)
    requires Layout(before.files, before.dirs) && Steady(see, keep, before, t)
    requires Between(before, SeenAt(see, before), t, there) && later == end && Grows(there, later)
    requires end == AfterEdit(see, there, StageOf(see, before))
    ensures SeenAt(see, end) == Kept(end.files, keep) && SeenAt(see, there) == Kept(there.files, keep)
    ensures SeenAt(see, before) == Kept(before.files, keep)
  {
    StartIsBetween(before, SeenAt(see, before), t);
    NoNewHollowComposes(before.files, before.dirs, there.files, there.dirs, end.files, end.dirs);
    EditedBackIs(before.files, SeenAt(see, before), there.files, SeenAt(see, there));
    assert Between(before, SeenAt(see, before), t, end);
  }

  lemma AnchorKept(files: map<Path, Node>, keep: Path -> bool)
    ensures KeepsTarget(Capture(files, Kept(files, keep)), keep)
  {
  }

  /** The anchor can already be staged only when the target had the very same files. */
  lemma UndoUnchanged(files0: map<Path, Node>, seen0: set<Path>, files: map<Path, Node>, t: Checkpoint)
    requires seen0 <= files0.Keys && files == Edited(files0, seen0, t)
    requires Matches(Capture(files, t.entries.Keys), Capture(files0, seen0))
    ensures files == files0 - (t.entries.Keys - seen0)
  {
    MatchesCapture(Capture(files, t.entries.Keys), files0, seen0);
    CaptureDecides(files0, seen0, files, t.entries.Keys);
    assert t.entries.Keys - seen0 == {} && files0 - {} == files0;
    forall p ensures Same(files0, files, p) {
      if p in seen0 {
        assert Same(files0, files, p);
      } else {
        EditSpares(files0, seen0, t, p);
      }
    }
    SameEverywhere(files0, files);
  }

  lemma EditSpares(files0: map<Path, Node>, seen0: set<Path>, t: Checkpoint, p: Path)
    requires p !in seen0 && p !in t.entries
    ensures Same(files0, Edited(files0, seen0, t), p)
  {
  }

  /** A stage that matches another is that other. */
  lemma MatchesCapture(a: Checkpoint, files: map<Path, Node>, seen: set<Path>)
    requires seen <= files.Keys && Matches(a, Capture(files, seen)) && a.modes.Keys == a.entries.Keys
    ensures a == Capture(files, seen)
  {
    CaptureAt(files, seen);
    if seen == {} {
      assert a.modes == map[];
    }
  }
}
