/** How the deciding rule of a path changes when rules are added. */
module Selection {
  import opened Paths
  import opened Permissions

  /** A matching rule of highest rank exists as soon as any rule matches. */
  lemma SelectionExists(w: World, rules: set<PathRule>, c: Path, some: PathRule) returns (best: PathRule)
    requires some in rules && w.under(c, some.path)
    ensures Selects(w, rules, c, best)
  {
    var rest := rules - {some};
    if other :| other in rest && w.under(c, other.path) {
      best := SelectionExists(w, rest, c, other);
      best := if Outranks(best, some) then best else some;
    } else {
      best := some;
    }
  }

  lemma SelectionDecides(w: World, rules: set<PathRule>, c: Path, r: PathRule, write: bool)
    requires Selects(w, rules, c, r)
    ensures Granted(w, rules, c, write) <==> Permits(r.access, write)
  {
    forall other | Selects(w, rules, c, other) ensures other.access == r.access {
      assert Outranks(r, other) && Outranks(other, r);
    }
  }

  /** Where no rule separates `b` from `c` below it, both are decided alike. */
  lemma SelectionTransfers(w: World, rules: set<PathRule>, b: Path, c: Path, write: bool)
    requires PrefixWorld(w) && b <= c
    requires forall r | r in rules && r.path <= c :: r.path <= b
    ensures Granted(w, rules, b, write) <==> Granted(w, rules, c, write)
  {
    assert forall r | r in rules :: w.under(b, r.path) <==> w.under(c, r.path);
    forall r ensures Selects(w, rules, b, r) <==> Selects(w, rules, c, r) {
    }
  }

  /** A deciding rule that was there before the additions decided before, too. */
  lemma OldRuleDecides(w: World, before: set<PathRule>, after: set<PathRule>, c: Path, r: PathRule, write: bool)
    requires before <= after && r in before && Selects(w, after, c, r)
    ensures Granted(w, before, c, write) <==> Granted(w, after, c, write)
  {
    SelectionDecides(w, before, c, r, write);
    SelectionDecides(w, after, c, r, write);
  }

  lemma LexicalCandidates(w: World, path: Path)
    requires Lexical(w)
    ensures w.resolve(path) == Some(path) && Candidates(w, path) == {path}
  {
  }
}
