/**
 Concrete relocations, from /s to /d or /e/d with the command state in /z, that widen when
 one proviso of the general theorems is dropped.
 */
module RelocationLimits {
  import opened Paths
  import opened Permissions
  import opened Revisions
  import opened Selection
  import opened Relocation

  function Plain(rules: seq<PathRule>, sources: seq<Source>): Policy {
    Policy(["s"], WorkspaceProfile, OnRequest, rules, [], NetworkPolicy(Ask, [], [], []), sources, [], [])
  }

  lemma DifferentRoots(a: string, b: string, x: Path, y: Path)
    requires a != b
    ensures !([a] + x <= [b] + y)
  {
    assert ([a] + x)[0] == a && ([b] + y)[0] == b;
  }

  lemma PlainTranslated(w: World, p: Policy, d: Path, rel: Path, top: PathRule)
    requires Lexical(w) && p.ceilings == [] && p.privatePaths == []
    requires Selects(w, RuleSet(MoveRules(p.filesystem, ["s"], d)), d + rel, top) && Permits(top.access, false)
    requires !([".praxis"] <= rel)
    ensures Allows(w, Translated(w, p, ["s"], d, ["z"]), d + rel, false)
  {
    TranslatedPrivate(w, p, ["s"], d, ["z"], rel);
    LexicalCandidates(w, d + rel);
  }

  lemma PlainRelocated(w: World, p: Policy, d: Path, rel: Path)
    requires Lexical(w) && !(["z"] <= d + rel)
    requires Allows(w, Translated(w, p, ["s"], d, ["z"]), d + rel, false)
    ensures Allows(w, Relocate(w, p, ["s"], d, ["z"]), d + rel, false)
  {
    RelocateIsMeet(w, p, ["s"], d, ["z"]);
    BoundaryDecides(w, d, EffectiveReadOnly(p), ["z"], rel, false);
  }

  lemma AncestorRuleStays(w: World, p: Policy, rule: PathRule)
    requires Lexical(w) && rule == PathRule(["e"], Read) && p.filesystem == [rule]
    ensures Selects(w, RuleSet(MoveRules(p.filesystem, ["s"], ["e", "d"])), ["e", "d"] + [], rule)
  {
    DifferentRoots("s", "e", [], []);
    var moved := MoveRules(p.filesystem, ["s"], ["e", "d"]);
    assert |moved| == 1 && moved[0] == rule;
    assert ["e", "d"] + [] == ["e"] + ["d"];
  }

  /** Without a rule at the source root, an ancestor grant of the destination leaks in. */
  lemma UnanchoredRelocationWidens(w: World)
    requires Lexical(w)
    ensures var p := Plain([PathRule(["e"], Read)], []);
            && !Allows(w, p, ["s"], false)
            && Allows(w, Relocate(w, p, ["s"], ["e", "d"], ["z"]), ["e", "d"], false)
  {
    var rule := PathRule(["e"], Read);
    var p := Plain([rule], []);
    AncestorRuleStays(w, p, rule);
    PlainTranslated(w, p, ["e", "d"], [], rule);
    assert ["e", "d"] + [] == ["e", "d"] == ["e"] + ["d"];
    DifferentRoots("z", "e", [], ["d"]);
    PlainRelocated(w, p, ["e", "d"], []);
    UncoveredDenied(w, p, rule);
  }

  lemma UncoveredDenied(w: World, p: Policy, rule: PathRule)
    requires Lexical(w) && rule.path == ["e"] && p.filesystem == [rule]
    ensures !Allows(w, p, ["s"], false)
  {
    LexicalCandidates(w, ["s"]);
    DifferentRoots("e", "s", [], []);
  }

  /** A grant already sitting below the destination overrides the parent's denial. */
  lemma RulesAtDestinationWiden(w: World)
    requires Lexical(w)
    ensures var p := Plain([PathRule(["s"], Deny), PathRule(["d", "x"], Read)], []);
            && !Allows(w, p, ["s", "x"], false)
            && Allows(w, Relocate(w, p, ["s"], ["d"], ["z"]), ["d", "x"], false)
  {
    var deny, grant, top := PathRule(["s"], Deny), PathRule(["d", "x"], Read), PathRule(["d"], Deny);
    var p := Plain([deny, grant], []);
    LexicalCandidates(w, ["s", "x"]);
    DifferentRoots("d", "s", ["x"], ["x"]);
    DifferentRoots("s", "d", [], ["x"]);
    DifferentRoots("z", "d", [], ["x"]);
    assert ["s", "x"] == ["s"] + ["x"] && ["d", "x"] == ["d"] + ["x"];
    assert RuleSet(p.filesystem) == {deny, grant};
    assert Selects(w, RuleSet(p.filesystem), ["s", "x"], deny);
    SelectionDecides(w, RuleSet(p.filesystem), ["s", "x"], deny, false);
    var moved := MoveRules(p.filesystem, ["s"], ["d"]);
    assert |moved| == 2 && moved[0] == top && moved[1] == grant;
    assert RuleSet(moved) == {top, grant};
    assert Selects(w, RuleSet(moved), ["d", "x"], grant);
    DifferentRoots(".praxis", "x", [], []);
    PlainTranslated(w, p, ["d"], ["x"], grant);
    PlainRelocated(w, p, ["d"], ["x"]);
  }

  lemma PlainNames()
    ensures !HasProtected(["d", "policy"])
  {
    assert CaseFold("d")[0] == 'd' && CaseFold("policy")[0] == 'p';
    forall i | 0 <= i < 2 ensures CaseFold(["d", "policy"][i]) !in PROTECTED {
      assert forall name | name in PROTECTED :: name[0] == '.';
    }
  }

  lemma PolicyFileCarries(w: World, p: Policy, rule: PathRule)
    requires Lexical(w) && rule == PathRule(["s"], Write) && p == Plain([rule], [FileSource(["s", "policy"])])
    ensures Anchored(p, ["s"], ["d"]) && Protected(p) == {["s", "policy"]}
    ensures Carries(w, p, ["s"], ["d"], ["z"], ["policy"], true)
  {
    assert p.filesystem[0] == rule && RuleSet(p.filesystem) == {rule};
    assert FileSource(["s", "policy"]) in p.sources && Protected(p) == {["s", "policy"]};
    assert ["s"] + ["policy"] == ["s", "policy"] && ["d"] + ["policy"] == ["d", "policy"];
    DifferentRoots("s", "d", ["policy"], ["policy"]);
    DifferentRoots("z", "d", [], ["policy"]);
    DifferentRoots(".praxis", "policy", [], []);
    PlainNames();
    assert Selects(w, {rule}, ["s", "policy"], rule);
    AnchoredJustified(w, p, ["s"], ["d"], ["policy"], true);
  }

  /** The parent's own policy file is not writable; its copy in the child is. */
  lemma RelocatedPolicyFileWritable(w: World)
    requires Lexical(w)
    ensures var p := Plain([PathRule(["s"], Write)], [FileSource(["s", "policy"])]);
            && !Allows(w, p, ["s", "policy"], true)
            && Allows(w, Relocate(w, p, ["s"], ["d"], ["z"]), ["d", "policy"], true)
  {
    var rule := PathRule(["s"], Write);
    var p := Plain([rule], [FileSource(["s", "policy"])]);
    PolicyFileCarries(w, p, rule);
    assert ["s"] + ["policy"] == ["s", "policy"] && ["d"] + ["policy"] == ["d", "policy"];
    RelocationExact(w, p, ["s"], ["d"], ["z"], ["policy"], true);
    RelocationNarrowsWrites(w, p, ["s"], ["d"], ["z"], ["policy"]);
  }
}
