/** Adding user-selected files to a policy as read rules, denials and ceilings preserved. */
module ReadFiles {
  import opened Paths
  import opened Permissions
  import opened Selection
  import opened Intersection
  import opened PolicyOps
  import opened PolicyMeaning

  predicate DenyCovers(w: World, rules: seq<PathRule>, c: Path) {
    exists r :: r in rules && r.access == Deny && w.under(c, r.path)
  }

  /** Paths of selected regular files: as written, and their real targets. */
  function Picks(w: World, isFile: Path -> bool, paths: seq<Path>): set<Path> {
    set v, c | v in paths && w.resolve(v).Some? && isFile(w.resolve(v).value) && c in Candidates(w, v) :: c
  }

  /** Read rules for the picks under no deny rule and not readable already. */
  ghost function Earned(w: World, p: Policy, picks: set<Path>): set<PathRule> {
    set c | c in picks && !DenyCovers(w, p.filesystem, c) && !Allows(w, p, c, false) :: PathRule(c, Read)
  }

  /** The policy after the selection: the old rules and the earned ones, nothing else changed. */
  ghost predicate Extended(w: World, isFile: Path -> bool, p: Policy, paths: seq<Path>, q: Policy) {
    && q == p.(filesystem := q.filesystem)
    && RuleSet(q.filesystem) == RuleSet(p.filesystem) + Earned(w, p, Picks(w, isFile, paths))
  }

  /** One candidate of one selected file. */
  method Consider(w: World, p: Policy, rules: seq<PathRule>, c: Path) returns (r: seq<PathRule>)
    ensures RuleSet(r) == RuleSet(rules) + Earned(w, p, {c})
  {
    r := rules;
    if !DenyCovers(w, p.filesystem, c) {
      var reason := PathReason(w, p, c, false);
      if !reason.Authorized? {
        r := rules + [PathRule(c, Read)];
      }
    }
  }

  lemma EarnedUnion(w: World, p: Policy, a: set<Path>, b: set<Path>)
    ensures Earned(w, p, a + b) == Earned(w, p, a) + Earned(w, p, b)
  {
  }

  /** The rules after the first `n` selected paths. */
  ghost predicate After(w: World, isFile: Path -> bool, p: Policy, paths: seq<Path>, n: nat, rules: seq<PathRule>)
    requires n <= |paths|
  {
    RuleSet(rules) == RuleSet(p.filesystem) + Earned(w, p, Picks(w, isFile, paths[..n]))
  }

  /** One selected path with its real target, if that is a regular file. */
  method ConsiderFile(w: World, isFile: Path -> bool, p: Policy, paths: seq<Path>, i: nat, rules: seq<PathRule>)
    returns (r: seq<PathRule>)
    requires i < |paths| && w.resolve(paths[i]).Some? && After(w, isFile, p, paths, i, rules)
    ensures After(w, isFile, p, paths, i + 1, r)
  {
    var path, target := paths[i], w.resolve(paths[i]).value;
    OneMorePick(w, isFile, paths, i);
    r := rules;
    if isFile(target) {
      r := Consider(w, p, r, path);
      if target != path {
        r := Consider(w, p, r, target);
      }
      assert Candidates(w, path) == {path} + {target};
      EarnedUnion(w, p, {path}, {target});
      EarnedUnion(w, p, Picks(w, isFile, paths[..i]), {path} + {target});
    }
  }

  /** Fails when a selected path cannot be resolved. */
  method WithReadFiles(w: World, isFile: Path -> bool, p: Policy, paths: seq<Path>) returns (q: Option<Policy>)
    ensures q.None? <==> exists v :: v in paths && w.resolve(v).None?
    ensures q.Some? ==> Extended(w, isFile, p, paths, q.value)
    ensures q.Some? && PrefixWorld(w) ==>
            forall v | v in paths && isFile(w.resolve(v).value) ::
              && (Undenied(w, p.filesystem, v) ==> RulesGrant(w, q.value.filesystem, v, false))
              && (Undenied(w, p.filesystem, w.resolve(v).value) ==>
                    RulesGrant(w, q.value.filesystem, w.resolve(v).value, false))
  {
    var rules := p.filesystem;
    for i := 0 to |paths|
      invariant forall k | 0 <= k < i :: w.resolve(paths[k]).Some?
      invariant After(w, isFile, p, paths, i, rules)
    {
      if w.resolve(paths[i]).None? {
        assert paths[i] in paths;
        return None;
      }
      rules := ConsiderFile(w, isFile, p, paths, i, rules);
    }
    assert paths[..|paths|] == paths;
    q := Some(DedupRules(p, rules));
    if PrefixWorld(w) {
      forall v | v in paths && isFile(w.resolve(v).value)
        ensures Undenied(w, p.filesystem, v) ==> RulesGrant(w, q.value.filesystem, v, false)
        ensures Undenied(w, p.filesystem, w.resolve(v).value) ==>
                RulesGrant(w, q.value.filesystem, w.resolve(v).value, false)
      {
        SelectedGranted(w, isFile, p, paths, q.value, v, v);
        SelectedGranted(w, isFile, p, paths, q.value, v, w.resolve(v).value);
      }
    }
  }

  /** No deny rule covers the path. */
  ghost predicate Undenied(w: World, rules: seq<PathRule>, c: Path) {
    forall r | r in rules && r.access == Deny :: !w.under(c, r.path)
  }

  /** A selected file and its real target are granted where no deny rule covers them. */
  lemma SelectedGranted(w: World, isFile: Path -> bool, p: Policy, paths: seq<Path>, q: Policy, v: Path, c: Path)
    requires PrefixWorld(w) && Extended(w, isFile, p, paths, q)
    requires v in paths && w.resolve(v).Some? && isFile(w.resolve(v).value)
    requires c == v || c == w.resolve(v).value
    ensures Undenied(w, p.filesystem, c) ==> RulesGrant(w, q.filesystem, c, false)
  {
    if Undenied(w, p.filesystem, c) {
      SelectedIsPick(w, isFile, paths, v, c);
      PickReadable(w, p, Picks(w, isFile, paths), c);
      GrantedMeans(w, q.filesystem, c, false);
    }
  }

  lemma SelectedIsPick(w: World, isFile: Path -> bool, paths: seq<Path>, v: Path, c: Path)
    requires v in paths && w.resolve(v).Some? && isFile(w.resolve(v).value)
    requires c == v || c == w.resolve(v).value
    ensures c in Picks(w, isFile, paths)
  {
    CandidatesAre(w, v);
    assert c in Candidates(w, v);
  }

  /**
   What the selection adds: read rules for selected files and their real targets, where no deny rule
   covers them and they could not be read before; the rules there were stay.
   */
  lemma SelectionAdds(w: World, isFile: Path -> bool, p: Policy, paths: seq<Path>, q: Policy)
    requires Extended(w, isFile, p, paths, q)
    ensures q == p.(filesystem := q.filesystem) && forall r | r in p.filesystem :: r in q.filesystem
    ensures forall r | r in q.filesystem && r !in p.filesystem ::
              && r.access == Read && Undenied(w, p.filesystem, r.path) && !Permitted(w, p, r.path, false)
              && exists v :: v in paths && w.resolve(v).Some? && isFile(w.resolve(v).value)
                             && (r.path == v || r.path == w.resolve(v).value)
  {
    var picks := Picks(w, isFile, paths);
    forall r | r in p.filesystem ensures r in q.filesystem {
      assert r in RuleSet(q.filesystem);
    }
    forall r | r in q.filesystem && r !in p.filesystem
      ensures r.access == Read && Undenied(w, p.filesystem, r.path) && !Permitted(w, p, r.path, false)
      ensures r.path in picks
    {
      assert r in RuleSet(q.filesystem) && r !in RuleSet(p.filesystem);
      EarnedRule(w, p, picks, r);
      PermittedMeans(w, p, r.path, false);
    }
  }

  function DedupRules(p: Policy, rules: seq<PathRule>): (q: Policy)
    ensures RuleSet(q.filesystem) == RuleSet(rules)
  {
    DedupKeepsSet(rules);
    p.(filesystem := Dedup(rules))
  }

  lemma OneMorePick(w: World, isFile: Path -> bool, paths: seq<Path>, i: nat)
    requires i < |paths|
    ensures Picks(w, isFile, paths[..i + 1]) == Picks(w, isFile, paths[..i])
              + if w.resolve(paths[i]).Some? && isFile(w.resolve(paths[i]).value) then Candidates(w, paths[i]) else {}
  {
    assert paths[..i + 1] == paths[..i] + [paths[i]];
  }

  // ----- What the selection does to decisions

  lemma EarnedRule(w: World, p: Policy, picks: set<Path>, r: PathRule)
    requires r in Earned(w, p, picks)
    ensures r.access == Read && r.path in picks && !DenyCovers(w, p.filesystem, r.path) && !Allows(w, p, r.path, false)
  {
  }

  /** Adding read rules over no denial keeps every granted read. */
  lemma CandidateReadsKept(w: World, p: Policy, picks: set<Path>, c: Path)
    requires Granted(w, RuleSet(p.filesystem), c, false)
    ensures Granted(w, RuleSet(p.filesystem) + Earned(w, p, picks), c, false)
  {
    var before := RuleSet(p.filesystem);
    var after := before + Earned(w, p, picks);
    var r :| Selects(w, before, c, r) && Permits(r.access, false);
    var s := SelectionExists(w, after, c, r);
    SelectionDecides(w, after, c, s, false);
    if s in before {
      OldRuleDecides(w, before, after, c, s, false);
    } else {
      EarnedRule(w, p, picks, s);
    }
  }

  /** A read rule never decides in favour of a write. */
  lemma CandidateWritesOld(w: World, p: Policy, picks: set<Path>, c: Path)
    requires Granted(w, RuleSet(p.filesystem) + Earned(w, p, picks), c, true)
    ensures Granted(w, RuleSet(p.filesystem), c, true)
  {
    var after := RuleSet(p.filesystem) + Earned(w, p, picks);
    var s :| Selects(w, after, c, s) && Permits(s.access, true);
    if s !in RuleSet(p.filesystem) {
      EarnedRule(w, p, picks, s);
    }
    OldRuleDecides(w, RuleSet(p.filesystem), after, c, s, true);
  }

  /** A deciding deny rule still decides: no earned rule lies at or below it. */
  lemma CandidateDenialKept(w: World, p: Policy, picks: set<Path>, c: Path, d: PathRule)
    requires PrefixWorld(w) && Selects(w, RuleSet(p.filesystem), c, d) && d.access == Deny
    ensures Selects(w, RuleSet(p.filesystem) + Earned(w, p, picks), c, d)
  {
    forall r | r in Earned(w, p, picks) && w.under(c, r.path) ensures Outranks(d, r) {
      EarnedNotBelowDenial(w, p, picks, r, d);
      if |r.path| >= |d.path| {
        PrefixesNest(d.path, r.path, c);
      }
    }
  }

  lemma EarnedNotBelowDenial(w: World, p: Policy, picks: set<Path>, r: PathRule, d: PathRule)
    requires PrefixWorld(w) && r in Earned(w, p, picks) && d in p.filesystem && d.access == Deny
    ensures !(d.path <= r.path)
  {
    assert w.under(r.path, d.path) <==> d.path <= r.path;
  }

  /** A pick under no denial has only read rules to be decided by, and one of them. */
  lemma PickReadable(w: World, p: Policy, picks: set<Path>, c: Path)
    requires PrefixWorld(w) && c in picks && !DenyCovers(w, p.filesystem, c)
    ensures Granted(w, RuleSet(p.filesystem) + Earned(w, p, picks), c, false)
  {
    var before := RuleSet(p.filesystem);
    var after := before + Earned(w, p, picks);
    if Allows(w, p, c, false) {
      assert c in Candidates(w, c);
      CandidateReadsKept(w, p, picks, c);
    } else {
      assert PathRule(c, Read) in after && w.under(c, c);
      var s := SelectionExists(w, after, c, PathRule(c, Read));
      if s in before {
        assert s in p.filesystem;
      } else {
        EarnedRule(w, p, picks, s);
      }
    }
  }

  /** The selection removes no read and grants no write. */
  lemma SelectionOnlyAddsReads(w: World, isFile: Path -> bool, p: Policy, paths: seq<Path>, q: Policy, path: Path)
    requires Extended(w, isFile, p, paths, q)
    ensures Allows(w, p, path, false) ==> Allows(w, q, path, false)
    ensures Allows(w, q, path, true) ==> Allows(w, p, path, true)
  {
    var picks := Picks(w, isFile, paths);
    if Allows(w, p, path, false) {
      forall c | c in Candidates(w, path) ensures Granted(w, RuleSet(q.filesystem), c, false) {
        CandidateReadsKept(w, p, picks, c);
      }
    }
    if Allows(w, q, path, true) {
      forall c | c in Candidates(w, path) ensures Granted(w, RuleSet(p.filesystem), c, true) {
        CandidateWritesOld(w, p, picks, c);
      }
    }
  }

  /** A path one of whose candidates a deny rule decides stays refused. */
  lemma SelectionOverridesNoDenial(w: World, isFile: Path -> bool, p: Policy, paths: seq<Path>, q: Policy,
                                   path: Path, c: Path, d: PathRule, write: bool)
    requires PrefixWorld(w) && Extended(w, isFile, p, paths, q)
    requires c == path || w.resolve(path) == Some(c)
    requires Selects(w, RuleSet(p.filesystem), c, d) && d.access == Deny
    ensures !Allows(w, q, path, write)
  {
    CandidatesAre(w, path);
    assert c in Candidates(w, path) || w.resolve(path).None?;
    CandidateDenialKept(w, p, Picks(w, isFile, paths), c, d);
    SelectionDecides(w, RuleSet(q.filesystem), c, d, write);
  }

  /** A read the selection adds has a candidate at or below a selected file. */
  lemma AddedReadsAreSelected(w: World, isFile: Path -> bool, p: Policy, paths: seq<Path>, q: Policy, path: Path)
    requires PrefixWorld(w) && Extended(w, isFile, p, paths, q)
    requires Allows(w, q, path, false) && !Allows(w, p, path, false)
    ensures exists c, x :: (c == path || w.resolve(path) == Some(c)) && x in Picks(w, isFile, paths) && x <= c
  {
    CandidatesAre(w, path);
    if forall c, x | c in Candidates(w, path) && x in Picks(w, isFile, paths) :: !(x <= c) {
      ElsewhereUnchanged(w, isFile, p, paths, q, path);
    }
  }

  lemma ElsewhereUnchanged(w: World, isFile: Path -> bool, p: Policy, paths: seq<Path>, q: Policy, path: Path)
    requires PrefixWorld(w) && Extended(w, isFile, p, paths, q)
    requires forall c, x | c in Candidates(w, path) && x in Picks(w, isFile, paths) :: !(x <= c)
    ensures Allows(w, q, path, false) ==> Allows(w, p, path, false)
  {
    var picks := Picks(w, isFile, paths);
    forall c | c in Candidates(w, path)
      ensures Granted(w, RuleSet(q.filesystem), c, false) ==> Granted(w, RuleSet(p.filesystem), c, false)
    {
      if s :| Selects(w, RuleSet(q.filesystem), c, s) && Permits(s.access, false) {
        if s !in RuleSet(p.filesystem) {
          EarnedRule(w, p, picks, s);
        }
        OldRuleDecides(w, RuleSet(p.filesystem), RuleSet(q.filesystem), c, s, false);
      }
    }
  }

  /** Everything but the path rules lets `path` be read. */
  ghost predicate ReadableButForRules(w: World, p: Policy, path: Path) {
    && w.resolve(path).Some?
    && (forall x | x in p.privatePaths :: !w.under(path, x) && !w.under(w.resolve(path).value, x))
    && forall ceiling | ceiling in p.ceilings :: Allows(w, ceiling, path, false)
  }

  /** Exactly which selected files can be read afterwards. */
  lemma SelectedFileReadable(w: World, isFile: Path -> bool, p: Policy, paths: seq<Path>, q: Policy, v: Path)
    requires PrefixWorld(w) && Extended(w, isFile, p, paths, q)
    requires v in paths && w.resolve(v).Some? && isFile(w.resolve(v).value)
    ensures Allows(w, q, v, false) <==>
            ReadableButForRules(w, p, v)
            && forall c | c == v || c == w.resolve(v).value ::
                 RulesGrant(w, p.filesystem, c, false) || Undenied(w, p.filesystem, c)
  {
    forall c | c == v || c == w.resolve(v).value
      ensures Granted(w, RuleSet(q.filesystem), c, false) <==>
              RulesGrant(w, p.filesystem, c, false) || Undenied(w, p.filesystem, c)
    {
      PickDecided(w, isFile, p, paths, q, v, c);
    }
    assert forall x :: x in PathSet(p.privatePaths) <==> x in p.privatePaths;
    CandidatesAre(w, v);
  }

  lemma PickDecided(w: World, isFile: Path -> bool, p: Policy, paths: seq<Path>, q: Policy, v: Path, c: Path)
    requires PrefixWorld(w) && Extended(w, isFile, p, paths, q)
    requires v in paths && w.resolve(v).Some? && isFile(w.resolve(v).value)
    requires c == v || c == w.resolve(v).value
    ensures Granted(w, RuleSet(q.filesystem), c, false) <==>
            RulesGrant(w, p.filesystem, c, false) || Undenied(w, p.filesystem, c)
  {
    var picks := Picks(w, isFile, paths);
    SelectedIsPick(w, isFile, paths, v, c);
    GrantedMeans(w, p.filesystem, c, false);
    assert Undenied(w, p.filesystem, c) <==> !DenyCovers(w, p.filesystem, c);
    if Granted(w, RuleSet(p.filesystem), c, false) {
      CandidateReadsKept(w, p, picks, c);
    } else if !DenyCovers(w, p.filesystem, c) {
      PickReadable(w, p, picks, c);
    } else {
      UngrantedStays(w, p, picks, c);
    }
  }

  /** A path that a deny rule covers and that was not granted is not granted by the selection. */
  lemma UngrantedStays(w: World, p: Policy, picks: set<Path>, c: Path)
    requires PrefixWorld(w) && DenyCovers(w, p.filesystem, c) && !Granted(w, RuleSet(p.filesystem), c, false)
    ensures !Granted(w, RuleSet(p.filesystem) + Earned(w, p, picks), c, false)
  {
    var before := RuleSet(p.filesystem);
    var r :| r in p.filesystem && r.access == Deny && w.under(c, r.path);
    var s := SelectionExists(w, before, c, r);
    SelectionDecides(w, before, c, s, false);
    CandidateDenialKept(w, p, picks, c, s);
    SelectionDecides(w, before + Earned(w, p, picks), c, s, false);
  }
}
