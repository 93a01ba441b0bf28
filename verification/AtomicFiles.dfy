/**
 Replacing and installing a configuration file. A directory maps names to inodes; every step is
 recorded, so that what a crash after it leaves behind can be asked about. A process that dies
 leaves the view as it is. A machine that stops keeps what reached the disk: of each name any entry
 it had since the directory was last synced, and of an inode never synced no telling what.
 */
module AtomicFiles {
  import opened Paths

  type Inode = nat

  /** A directory as another process, or the next start, finds it. */
  datatype View = View(names: map<string, Inode>, data: map<Inode, string>, durable: map<Inode, string>) {
    ghost predicate Sound() {
      && (forall n | n in names :: names[n] in data)
      && (forall i | i in durable :: i in data && durable[i] == data[i])
    }

    function Content(name: string): Option<string> {
      if name in names && names[name] in data then Some(data[names[name]]) else None
    }

    /** Every name of an inode; its count is the link count. */
    function Links(inode: Inode): set<string> {
      set n | n in names && names[n] == inode
    }
  }

  predicate TempOf(target: string, name: string) {
    "." + target + "." <= name && |name| >= 4 && name[|name| - 4..] == ".tmp"
  }

  /** The names of temporary files: the target's between dots in front, and ".tmp" at the end. */
  lemma TempNames(target: string, middle: string, name: string)
    ensures TempOf(target, "." + target + "." + middle + ".tmp")
    ensures TempOf(target, name) ==> "." + target + "." <= name && |name| >= 4 && name[|name| - 4..] == ".tmp"
  {
    var temp := "." + target + "." + middle + ".tmp";
    assert temp == ("." + target + ".") + (middle + ".tmp");
    assert temp[|temp| - 4..] == ".tmp";
  }

  /** The target is absent, has one link, or one more that only an interrupted install leaves. */
  ghost predicate Reconcilable(v: View, target: string) {
    target in v.names ==>
      v.Links(v.names[target]) == {target}
      || exists t :: TempOf(target, t) && t != target && v.Links(v.names[target]) == {target, t}
  }

  lemma TempIsNotTarget(target: string, temp: string)
    requires TempOf(target, temp)
    ensures temp != target
  {
    assert |temp| >= |"." + target + "."| == |target| + 2;
  }

  // ----- What a stopped machine leaves

  /** With these entries on disk, and these inodes, the name may read as `c`. */
  ghost predicate Survives(names: map<string, Inode>, durable: map<Inode, string>, name: string, c: Option<string>) {
    if name !in names then c == None
    else names[name] in durable ==> c == Some(durable[names[name]])
  }

  /** Stopping at view `i`, the directory last synced at view `since`. */
  ghost predicate MaySurvive(trail: seq<View>, since: nat, i: nat, name: string, c: Option<string>)
    requires i < |trail|
  {
    exists j :: since <= j <= i && Survives(trail[j].names, trail[i].durable, name, c)
  }

  predicate SameEntry(a: map<string, Inode>, b: map<string, Inode>, name: string) {
    (name in a <==> name in b) && (name in a ==> a[name] == b[name])
  }

  ghost predicate Extends(a: map<Inode, string>, b: map<Inode, string>) {
    forall i | i in a :: i in b && b[i] == a[i]
  }

  /** From view `n` on the target is as before or names `inode`, which by then is on disk with the payload. */
  ghost predicate Orderly(trail: seq<View>, n: nat, target: string, inode: Inode, payload: string)
    requires 0 < n <= |trail|
  {
    && (forall i | n <= i < |trail| :: Extends(trail[n - 1].durable, trail[i].durable))
    && (forall j, i | n <= j <= i < |trail| :: SettledAt(trail, n, j, i, target, inode, payload))
  }

  ghost predicate SettledAt(trail: seq<View>, n: nat, j: nat, i: nat, target: string, inode: Inode, payload: string)
    requires 0 < n <= j <= i < |trail|
  {
    || SameEntry(trail[j].names, trail[n - 1].names, target)
    || (&& target in trail[j].names && trail[j].names[target] == inode
        && inode in trail[i].durable && trail[i].durable[inode] == payload)
  }

  /** A crash of the process anywhere from view `n` on leaves the target wholly old or wholly new. */
  ghost predicate Shows(trail: seq<View>, n: nat, target: string, payload: string)
    requires 0 < n <= |trail|
  {
    forall i | n <= i < |trail| :: OldOrNew(trail[i], trail[n - 1], target, payload)
  }

  predicate OldOrNew(v: View, before: View, target: string, payload: string) {
    v.Content(target) == before.Content(target) || v.Content(target) == Some(payload)
  }

  /** One more step keeps the order: the disk forgets nothing, and the target is old or safely new. */
  lemma OrderlyGrows(trail: seq<View>, n: nat, target: string, inode: Inode, payload: string, next: View)
    requires 0 < n <= |trail| && Orderly(trail, n, target, inode, payload) && Shows(trail, n, target, payload)
    requires Extends(trail[|trail| - 1].durable, next.durable) && OldOrNew(next, trail[n - 1], target, payload)
    requires || SameEntry(next.names, trail[n - 1].names, target)
             || (&& target in next.names && next.names[target] == inode
                 && inode in next.durable && next.durable[inode] == payload)
    ensures Orderly(trail + [next], n, target, inode, payload) && Shows(trail + [next], n, target, payload)
  {
    var more := trail + [next];
    forall i | n <= i < |more| ensures Extends(more[n - 1].durable, more[i].durable) {
      if i == |trail| && n < |trail| {
        assert Extends(trail[n - 1].durable, trail[i - 1].durable);
      }
    }
    forall j, i | n <= j <= i < |more| ensures SettledAt(more, n, j, i, target, inode, payload) {
      if i < |trail| {
        assert SettledAt(trail, n, j, i, target, inode, payload);
      } else if j < |trail| {
        assert SettledAt(trail, n, j, |trail| - 1, target, inode, payload);
      }
    }
  }

  /** Then whatever survives is the payload, or could have survived before. */
  lemma OldOrNewSurvives(trail: seq<View>, n: nat, since: nat, i: nat, target: string, inode: Inode, payload: string,
                         c: Option<string>)
    requires since < n <= i < |trail| && Orderly(trail, n, target, inode, payload)
    requires MaySurvive(trail, since, i, target, c)
    ensures c == Some(payload) || MaySurvive(trail, since, n - 1, target, c)
  {
    var j :| since <= j <= i && Survives(trail[j].names, trail[i].durable, target, c);
    if j < n {
      assert Survives(trail[j].names, trail[n - 1].durable, target, c);
    } else {
      assert SettledAt(trail, n, j, i, target, inode, payload);
      if SameEntry(trail[j].names, trail[n - 1].names, target) {
        assert Survives(trail[n - 1].names, trail[n - 1].durable, target, c);
      }
    }
  }

  // ----- How a file fills

  /** After the first `n` views some view has this content under the name. */
  ghost predicate SeenIn(trail: seq<View>, n: nat, name: string, content: string) {
    exists i :: n <= i < |trail| && trail[i].Content(name) == Some(content)
  }

  /** The file was seen with each length up to `k`. */
  ghost predicate SeenGrowing(trail: seq<View>, n: nat, name: string, payload: string, k: nat)
    requires k <= |payload|
  {
    forall m: nat | m <= k :: SeenIn(trail, n, name, payload[..m])
  }

  /** A longer trail shows what a shorter one did. */
  lemma StillSeen(shorter: seq<View>, trail: seq<View>, n: nat, name: string, payload: string, k: nat)
    requires k <= |payload| && shorter <= trail && SeenGrowing(shorter, n, name, payload, k)
    ensures SeenGrowing(trail, n, name, payload, k)
  {
    forall m: nat | m <= k ensures SeenIn(trail, n, name, payload[..m]) {
      assert SeenIn(shorter, n, name, payload[..m]);
      var i :| n <= i < |shorter| && shorter[i].Content(name) == Some(payload[..m]);
      assert trail[i] == shorter[i];
    }
  }

  lemma OneMoreSeen(trail: seq<View>, n: nat, name: string, payload: string, k: nat)
    requires 0 < k <= |payload| && n < |trail| && SeenGrowing(trail, n, name, payload, k - 1)
    requires trail[|trail| - 1].Content(name) == Some(payload[..k])
    ensures SeenGrowing(trail, n, name, payload, k)
  {
    assert SeenIn(trail, n, name, payload[..k]);
  }

  // ----- Faults and results

  /** Where one attempt fails. */
  datatype Faults = Faults(
    write: Option<nat>,   // characters written before writing or syncing the temporary file fails
    place: bool,          // rename or link raises
    sync: bool,           // first directory sync raises
    readBack: bool,       // reading the target again raises
    resync: bool)         // second directory sync raises

  predicate WriteFails(f: Faults, payload: string) { f.write.Some? && f.write.value <= |payload| }

  /** The directory is known to be on disk, at the first sync or after reading the target back. */
  predicate Confirmed(f: Faults) { !f.sync || (!f.readBack && !f.resync) }

  datatype Result = Done | Exists | NotVisible | OutcomeUnknown

  /** A new name for a new inode does not disturb the target's links. */
  lemma FreshLinkHarmless(v: View, target: string, temp: string, inode: Inode)
    requires v.Sound() && inode !in v.data && temp !in v.names && temp != target && Reconcilable(v, target)
    ensures forall other: View | other.names == v.names || other.names == v.names[temp := inode] ::
              Reconcilable(other, target)
  {
    forall other: View | other.names == v.names || other.names == v.names[temp := inode]
      ensures Reconcilable(other, target)
    {
      if target in v.names {
        assert v.names[target] in v.data && v.names[target] != inode;
        assert other.Links(v.names[target]) == v.Links(v.names[target]);
      }
    }
  }

  class Directory {
    var view: View
    ghost var trail: seq<View>
    /** The view at which the directory was last synced. */
    ghost var since: nat

    constructor (view: View)
      requires view.Sound()
      ensures Valid() && this.view == view && trail == [view]
    {
      this.view, trail, since := view, [view], 0;
    }

    ghost predicate Valid()
      reads this`view, this`trail, this`since
    {
      since < |trail| && trail[|trail| - 1] == view && view.Sound()
    }

    /** If the machine stopped now, the name could read as `c`. */
    ghost predicate AfterLoss(name: string, c: Option<string>)
      requires trail != []
      reads this`trail, this`since
    {
      MaySurvive(trail, since, |trail| - 1, name, c)
    }

    /** The steps since view `n` only add to the trail, and leave the target old or safely new. */
    ghost predicate Continues(before: seq<View>, target: string, inode: Inode, payload: string)
      requires before != []
      reads this`trail
    {
      && |trail| > |before| && trail[..|before|] == before
      && Orderly(trail, |before|, target, inode, payload) && Shows(trail, |before|, target, payload)
    }

    method Record(next: View)
      requires Valid() && next.Sound()
      modifies this`view, this`trail
      ensures Valid() && view == next && trail == old(trail) + [next]
    {
      view := next;
      trail := trail + [next];
    }

    /** A step of an operation that began after the views `before`. */
    method Advance(next: View, ghost before: seq<View>, ghost target: string, ghost inode: Inode, ghost payload: string)
      requires Valid() && next.Sound() && before != [] && |before| <= |trail| && trail[..|before|] == before
      requires Orderly(trail, |before|, target, inode, payload) && Shows(trail, |before|, target, payload)
      requires Extends(view.durable, next.durable) && OldOrNew(next, before[|before| - 1], target, payload)
      requires || SameEntry(next.names, before[|before| - 1].names, target)
               || (&& target in next.names && next.names[target] == inode
                   && inode in next.durable && next.durable[inode] == payload)
      modifies this`view, this`trail
      ensures Valid() && view == next && trail == old(trail) + [next]
      ensures Continues(before, target, inode, payload)
    {
      assert trail[..|before|][|before| - 1] == before[|before| - 1];
      OrderlyGrows(trail, |before|, target, inode, payload, next);
      Record(next);
      assert trail[..|before|] == before;
    }

    method SyncDirectory()
      requires Valid()
      modifies this`since
      ensures Valid() && since == |trail| - 1
    {
      since := |trail| - 1;
    }

    /** Creates, fills and syncs a temporary file beside the target, character by character. */
    method WriteTemp(temp: string, inode: Inode, payload: string, f: Faults, ghost target: string) returns (ok: bool)
      requires Valid() && temp !in view.names && inode !in view.data && temp != target
      modifies this`view, this`trail
      ensures Valid() && ok == !WriteFails(f, payload)
      ensures Continues(old(trail), target, inode, payload)
      ensures forall i | |old(trail)| <= i < |trail| ::
                trail[i].names == old(view.names) || trail[i].names == old(view.names)[temp := inode]
      ensures if ok then view == View(old(view.names)[temp := inode], old(view.data)[inode := payload],
                                      old(view.durable)[inode := payload])
              else view.names == old(view.names) && Extends(old(view.data), view.data)
      ensures SeenGrowing(trail, |old(trail)|, temp, payload, if ok then |payload| else f.write.value)
    {
      ghost var was, before := view, trail;
      var n := FillTemp(temp, inode, payload, f, before, target);
      ok := f.write != Some(n);
      assert payload[..|payload|] == payload;
      assert was.names[temp := inode] - {temp} == was.names;
      var next := if ok then View(view.names, view.data, view.durable[inode := payload])
      else View(view.names - {temp}, view.data, view.durable);
      ghost var filled := trail;
      Advance(next, before, target, inode, payload);
      StillSeen(filled, trail, |before|, temp, payload, n);
      assert n == if ok then |payload| else f.write.value;
    }

    /** The writes, up to the one that fails. */
    method FillTemp(temp: string, inode: Inode, payload: string, f: Faults, ghost before: seq<View>,
                    ghost target: string)
      returns (n: nat)
      requires Valid() && before == trail && temp !in view.names && inode !in view.data && temp != target
      modifies this`view, this`trail
      ensures n <= |payload| && Valid() && Continues(before, target, inode, payload)
      ensures view == View(old(view.names)[temp := inode], old(view.data)[inode := payload[..n]], old(view.durable))
      ensures if WriteFails(f, payload) then f.write == Some(n) else n == |payload| && f.write != Some(n)
      ensures forall i | |before| <= i < |trail| :: trail[i].names == old(view.names)[temp := inode]
      ensures SeenGrowing(trail, |before|, temp, payload, n)
    {
      ghost var was := view;
      Advance(View(view.names[temp := inode], view.data[inode := ""], view.durable), before, target, inode, payload);
      n := 0;
      assert trail[|trail| - 1].Content(temp) == Some(payload[..0]);
      assert SeenIn(trail, |before|, temp, payload[..0]);
      while n < |payload| && f.write != Some(n)
        invariant n <= |payload| && (f.write.Some? ==> n <= f.write.value)
        invariant Filled(was, temp, inode, payload[..n], before, target, payload)
        invariant SeenGrowing(trail, |before|, temp, payload, n)
      {
        n := n + 1;
        FillOne(was, temp, inode, payload, n, before, target);
      }
    }

    /** The temporary file holds `part`, and every view of the operation has it. */
    ghost predicate Filled(was: View, temp: string, inode: Inode, part: string, before: seq<View>, target: string,
                           payload: string)
      requires before != []
      reads this`view, this`trail, this`since
    {
      && Valid() && Continues(before, target, inode, payload)
      && view == View(was.names[temp := inode], was.data[inode := part], was.durable)
      && forall i | |before| <= i < |trail| :: trail[i].names == was.names[temp := inode]
    }

    method FillOne(ghost was: View, temp: string, inode: Inode, payload: string, n: nat, ghost before: seq<View>,
                   ghost target: string)
      requires 0 < n <= |payload| && was.Sound() && inode !in was.data && temp != target
      requires before != [] && before[|before| - 1] == was
      requires Filled(was, temp, inode, payload[..n - 1], before, target, payload)
      modifies this`view, this`trail
      requires SeenGrowing(trail, |before|, temp, payload, n - 1)
      ensures Filled(was, temp, inode, payload[..n], before, target, payload)
      ensures SeenGrowing(trail, |before|, temp, payload, n)
    {
      ghost var shorter := trail;
      Advance(View(view.names, view.data[inode := payload[..n]], view.durable), before, target, inode, payload);
      StillSeen(shorter, trail, |before|, temp, payload, n - 1);
      assert trail[|trail| - 1].Content(temp) == Some(payload[..n]);
      OneMoreSeen(trail, |before|, temp, payload, n);
    }

    /** `_fsync_directory`; if it fails the target is read again, and only its own bytes are worth a second attempt. */
    method Confirm(target: string, payload: string, f: Faults) returns (r: Result)
      requires Valid()
      modifies this`since
      ensures Valid() && (r == Done || r == OutcomeUnknown)
      ensures r == Done && target in view.names && view.names[target] in view.durable ==>
              forall c :: AfterLoss(target, c) <==> c == view.Content(target)
      ensures since == if r == Done then |trail| - 1 else old(since)
      ensures r == OutcomeUnknown <==> f.sync && (f.readBack || view.Content(target) != Some(payload) || f.resync)
    {
      if !f.sync {
        SyncDirectory();
        return Done;
      }
      var found := if f.readBack then None else view.Content(target);
      if found != Some(payload) || f.resync {
        return OutcomeUnknown;
      }
      SyncDirectory();
      r := Done;
    }

    /** Replaces the target; a crash at any point leaves it wholly old or wholly new. */
    method Replace(target: string, payload: string, temp: string, inode: Inode, f: Faults) returns (r: Result)
      requires Valid() && TempOf(target, temp) && temp !in view.names && inode !in view.data
      modifies this
      ensures Valid() && Continues(old(trail), target, inode, payload)
      ensures r == if WriteFails(f, payload) || f.place then NotVisible
                   else if Confirmed(f) then Done else OutcomeUnknown
      ensures r == NotVisible ==> view.names == old(view.names) && view.Content(target) == old(view.Content(target))
      ensures r == Done || r == OutcomeUnknown ==>
              view.names == old(view.names)[target := inode] && view.Content(target) == Some(payload)
      ensures r == Done ==> forall c :: AfterLoss(target, c) <==> c == Some(payload)
      ensures r != Done ==> since == old(since)
    {
      TempIsNotTarget(target, temp);
      ghost var was, before := view, trail;
      var written := WriteTemp(temp, inode, payload, f, target);
      if !written {
        return NotVisible;
      }
      assert view.names - {temp} == was.names;
      var names := if f.place then view.names - {temp} else (view.names - {temp})[target := inode];
      Advance(View(names, view.data, view.durable), before, target, inode, payload);
      if f.place {
        return NotVisible;
      }
      r := Confirm(target, payload, f);
    }

    /** Installs where no target exists; never overwrites, and cleans up its temporary link. */
    method Install(target: string, payload: string, temp: string, inode: Inode, f: Faults) returns (r: Result)
      requires Valid() && TempOf(target, temp) && temp !in view.names && inode !in view.data
      requires Reconcilable(view, target)
      modifies this
      ensures Valid() && Continues(old(trail), target, inode, payload)
      ensures forall i | |old(trail)| <= i < |trail| :: Reconcilable(trail[i], target)
      ensures r == if WriteFails(f, payload) then NotVisible else if target in old(view.names) then Exists
                   else if f.place then NotVisible else if Confirmed(f) then Done else OutcomeUnknown
      ensures r == Done || r == OutcomeUnknown ==>
              && target !in old(view.names) && view.names == old(view.names)[target := inode]
              && view.Content(target) == Some(payload)
      ensures r == Done || r == OutcomeUnknown ==>
              exists i :: |old(trail)| <= i < |trail| && trail[i].Links(inode) == {target, temp}
      ensures r == Exists || r == NotVisible ==>
              view.names == old(view.names) && view.Content(target) == old(view.Content(target))
      ensures r == Done ==> forall c :: AfterLoss(target, c) <==> c == Some(payload)
      ensures r != Done ==> since == old(since)
    {
      TempIsNotTarget(target, temp);
      ghost var was, before := view, trail;
      var written := WriteTemp(temp, inode, payload, f, target);
      FreshLinkHarmless(was, target, temp, inode);
      if !written {
        return NotVisible;
      }
      assert view.names - {temp} == was.names;
      if target in view.names || f.place {
        r := if target in view.names then Exists else NotVisible;
        Advance(View(view.names - {temp}, view.data, view.durable), before, target, inode, payload);
        return;
      }
      assert view.Links(inode) == {temp};
      r := LinkAndConfirm(target, payload, temp, inode, f, before);
    }

    /** The link, its confirmation, and the removal of the temporary name. */
    method LinkAndConfirm(target: string, payload: string, temp: string, inode: Inode, f: Faults,
                          ghost before: seq<View>)
      returns (r: Result)
      requires Valid() && TempOf(target, temp) && temp != target && target !in view.names
      requires view.Links(inode) == {temp} && temp in view.names && inode in view.durable
      requires view.durable[inode] == payload
      requires before != [] && Continues(before, target, inode, payload) && target !in before[|before| - 1].names
      requires forall i | |before| <= i < |trail| :: Reconcilable(trail[i], target)
      modifies this
      ensures Valid() && Reconcilable(view, target) && Continues(before, target, inode, payload)
      ensures forall i | |before| <= i < |trail| :: Reconcilable(trail[i], target)
      ensures r == if Confirmed(f) then Done else OutcomeUnknown
      ensures view.names == (old(view.names) - {temp})[target := inode] && view.Content(target) == Some(payload)
      ensures r == Done ==> forall c :: AfterLoss(target, c) <==> c == Some(payload)
      ensures r != Done ==> since == old(since)
      ensures exists i :: |before| <= i < |trail| && trail[i].Links(inode) == {target, temp}
    {
      LinkTarget(target, payload, temp, inode, before);
      ghost var linked := |trail| - 1;
      r := Confirm(target, payload, f);
      ghost var names := view.names;
      Advance(View(view.names - {temp}, view.data, view.durable), before, target, inode, payload);
      OnlyTargetLeft(View(names, view.data, view.durable), view, target, temp, inode);
      assert view.names == (old(view.names) - {temp})[target := inode];
      assert trail[linked].Links(inode) == {target, temp};
    }

    method LinkTarget(target: string, payload: string, temp: string, inode: Inode, ghost before: seq<View>)
      requires Valid() && TempOf(target, temp) && temp != target && target !in view.names
      requires view.Links(inode) == {temp} && temp in view.names && inode in view.durable
      requires view.durable[inode] == payload
      requires before != [] && Continues(before, target, inode, payload)
      modifies this`view, this`trail
      ensures Valid() && view == View(old(view.names)[target := inode], old(view.data), old(view.durable))
      ensures trail == old(trail) + [view] && Continues(before, target, inode, payload)
      ensures view.Links(inode) == {target, temp} && Reconcilable(view, target)
    {
      assert temp in view.Links(inode);
      assert forall n | n in view.names && view.names[n] == inode :: n in view.Links(inode);
      Advance(View(view.names[target := inode], view.data, view.durable), before, target, inode, payload);
      assert view.Links(inode) == {target, temp};
    }

    /** Removes the one stale temporary link an interrupted install left, or refuses. */
    method Reconcile(target: string, syncs: bool) returns (r: Reconciled)
      requires Valid()
      modifies this
      ensures Valid() && view.data == old(view.data) && view.durable == old(view.durable)
      ensures r == Missing <==> target !in old(view.names)
      ensures r == Unsafe <==> !old(Reconcilable(view, target))
      ensures r == Unsafe || r == Missing ==> view == old(view)
      ensures r == Clean || r == Unconfirmed ==>
              && target in view.names && view.names[target] == old(view.names)[target]
              && view.Links(view.names[target]) == {target}
      ensures forall n | n in view.names && n in old(view.names) :: view.names[n] == old(view.names)[n]
      ensures forall n | n in old(view.names) && n !in view.names ::
                TempOf(target, n) && old(view.names)[n] == old(view.names)[target]
      ensures forall c | AfterLoss(target, c) :: MaySurvive(old(trail), old(since), |old(trail)| - 1, target, c)
      ensures r == Clean ==>
              if old(view.Links(view.names[target])) == {target} then view == old(view) && since == old(since)
              else since == |trail| - 1
      ensures r != Clean ==> since == old(since)
      ensures r == Unconfirmed <==>
              && !syncs && target in old(view.names) && old(Reconcilable(view, target))
              && old(view.Links(view.names[target])) != {target}
    {
      if target !in view.names {
        return Missing;
      }
      var inode := view.names[target];
      var links := view.Links(inode);
      assert target in links;
      if |links| == 1 {
        OneMember(links, target);
        return Clean;
      }
      var candidates := set n | n in links && TempOf(target, n);
      if |links| != 2 || |candidates| != 1 {
        if Reconcilable(view, target) {
          LinksOfReconcilable(view, target);
        }
        return Unsafe;
      }
      var temp :| temp in candidates;
      TempIsNotTarget(target, temp);
      TwoMembers(links, target, temp);
      UnlinkStale(target, temp, syncs);
      r := if syncs then Clean else Unconfirmed;
    }

    method UnlinkStale(target: string, temp: string, syncs: bool)
      requires Valid() && target in view.names && temp != target && view.Links(view.names[target]) == {target, temp}
      modifies this
      ensures Valid() && view == View(old(view.names) - {temp}, old(view.data), old(view.durable))
      ensures view.Links(old(view.names)[target]) == {target}
      ensures since == if syncs then |trail| - 1 else old(since)
      ensures forall c | AfterLoss(target, c) :: MaySurvive(old(trail), old(since), |old(trail)| - 1, target, c)
    {
      ghost var inode, before, synced := view.names[target], trail, since;
      assert temp in view.Links(inode);
      assert forall n | n in view.names && view.names[n] == inode :: n in view.Links(inode);
      assert target in view.Links(inode);
      Record(View(view.names - {temp}, view.data, view.durable));
      assert forall n | n in view.Links(inode) :: n == target;
      assert target in view.Links(inode);
      if syncs {
        SyncDirectory();
      }
      forall c | AfterLoss(target, c) ensures MaySurvive(before, synced, |before| - 1, target, c) {
        UnlinkSurvives(before, synced, trail, since, target, c);
      }
    }
  }

  /** One more view with the same target entry and inodes adds nothing to what may survive. */
  lemma UnlinkSurvives(before: seq<View>, synced: nat, trail: seq<View>, since: nat, target: string, c: Option<string>)
    requires synced < |before| && |trail| == |before| + 1 && trail[..|before|] == before && synced <= since < |trail|
    requires trail[|before|].durable == before[|before| - 1].durable
    requires SameEntry(trail[|before|].names, before[|before| - 1].names, target)
    requires MaySurvive(trail, since, |before|, target, c)
    ensures MaySurvive(before, synced, |before| - 1, target, c)
  {
    var j :| since <= j <= |before| && Survives(trail[j].names, trail[|before|].durable, target, c);
    var k := if j == |before| then j - 1 else j;
    assert j < |before| ==> trail[..|before|][j] == before[j];
    assert Survives(before[k].names, before[|before| - 1].durable, target, c);
  }

  lemma OnlyTargetLeft(v: View, w: View, target: string, temp: string, inode: Inode)
    requires v.Links(inode) == {target, temp} && temp != target && w.names == v.names - {temp}
    ensures w.Links(inode) == {target}
  {
    assert target in v.Links(inode);
    assert forall n | n in w.Links(inode) :: n in v.Links(inode);
  }

  lemma TwoMembers<T>(s: set<T>, x: T, y: T)
    requires x in s && y in s && x != y && |s| == 2
    ensures s == {x, y}
  {
    OneMember(s - {x}, y);
    assert s == (s - {x}) + {x};
  }

  datatype Reconciled = Clean | Missing | Unsafe | Unconfirmed

  lemma OneMember<T>(s: set<T>, x: T)
    requires x in s && |s| == 1
    ensures s == {x}
  {
    assert |s - {x}| == 0;
  }

  lemma LinksOfReconcilable(v: View, target: string)
    requires target in v.names && Reconcilable(v, target)
    ensures var links := v.Links(v.names[target]);
            |links| == 1 || (|links| == 2 && |set n | n in links && TempOf(target, n)| == 1)
  {
    var links := v.Links(v.names[target]);
    if links != {target} {
      var t :| TempOf(target, t) && t != target && links == {target, t};
      NotOwnTemp(target);
      assert (set n | n in links && TempOf(target, n)) == {t};
    }
  }

  lemma NotOwnTemp(target: string)
    ensures !TempOf(target, target)
  {
    if TempOf(target, target) { TempIsNotTarget(target, target); }
  }
}
