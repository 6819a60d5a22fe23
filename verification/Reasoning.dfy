/**
 Deterministic forward chaining (src/ai/reasoning.py).  The source sorts the premises of a step;
 a sorted list is determined by its multiset, and that is what a step records here.
 */
module Reasoning {
  type Fact(==, !new)

  datatype Rule = Rule(premises: seq<Fact>, conclusion: Fact)
  datatype ReasoningStep = ReasoningStep(premises: multiset<Fact>, conclusion: Fact)

  ghost predicate Applicable(rule: Rule, known: set<Fact>) {
    forall p :: p in rule.premises ==> p in known
  }

  /** Every rule whose premises are in `s` has its conclusion in `s`. */
  ghost predicate Closed(rules: seq<Rule>, s: set<Fact>) {
    forall k :: 0 <= k < |rules| && Applicable(rules[k], s) ==> rules[k].conclusion in s
  }

  ghost function Conclusions(steps: seq<ReasoningStep>): set<Fact> {
    set k | 0 <= k < |steps| :: steps[k].conclusion
  }

  /** Step `k` applies a rule to what is known before it, and concludes something new. */
  ghost predicate Justified(premises: set<Fact>, rules: seq<Rule>, steps: seq<ReasoningStep>, k: nat)
    requires k < |steps|
  {
    var known := premises + Conclusions(steps[..k]);
    && steps[k].conclusion !in known
    && exists r :: r in rules && Applicable(r, known) && steps[k] == ReasoningStep(multiset(r.premises), r.conclusion)
  }

  ghost predicate Derivation(premises: set<Fact>, rules: seq<Rule>, steps: seq<ReasoningStep>) {
    forall k :: 0 <= k < |steps| ==> Justified(premises, rules, steps, k)
  }

  function FactsOf(s: seq<Fact>): (r: set<Fact>)
    ensures forall f :: f in r <==> f in s
  {
    set f | f in s
  }

  lemma ConclusionsAppend(steps: seq<ReasoningStep>, step: ReasoningStep)
    ensures Conclusions(steps + [step]) == Conclusions(steps) + {step.conclusion}
  {
    var all := steps + [step];
    forall f | f in Conclusions(steps) ensures f in Conclusions(all) {
      var k :| 0 <= k < |steps| && steps[k].conclusion == f;
      assert all[k].conclusion == f;
    }
    assert all[|steps|].conclusion == step.conclusion;
  }

  lemma DerivationAppend(premises: set<Fact>, rules: seq<Rule>, steps: seq<ReasoningStep>, rule: Rule)
    requires Derivation(premises, rules, steps) && rule in rules
    requires Applicable(rule, premises + Conclusions(steps))
    requires rule.conclusion !in premises + Conclusions(steps)
    ensures Derivation(premises, rules, steps + [ReasoningStep(multiset(rule.premises), rule.conclusion)])
  {
    var all := steps + [ReasoningStep(multiset(rule.premises), rule.conclusion)];
    forall k | 0 <= k < |all| ensures Justified(premises, rules, all, k) {
      if k < |steps| {
        assert Justified(premises, rules, steps, k);
        assert all[..k] == steps[..k];
      } else {
        assert all[..k] == steps;
      }
    }
  }

  /** The facts that can still be added. */
  ghost function Open(rules: seq<Rule>, known: set<Fact>): set<Fact> {
    (set k | 0 <= k < |rules| :: rules[k].conclusion) - known
  }

  ghost predicate Reached(premises: set<Fact>, rules: seq<Rule>, steps: seq<ReasoningStep>, known: set<Fact>) {
    known == premises + Conclusions(steps) && Derivation(premises, rules, steps)
  }

  lemma Fire(premises: set<Fact>, rules: seq<Rule>, steps: seq<ReasoningStep>, known: set<Fact>, i: nat)
    requires Reached(premises, rules, steps, known)
    requires i < |rules| && rules[i].conclusion !in known && Applicable(rules[i], known)
    ensures Reached(premises, rules, steps + [ReasoningStep(multiset(rules[i].premises), rules[i].conclusion)],
                    known + {rules[i].conclusion})
    ensures |Open(rules, known + {rules[i].conclusion})| < |Open(rules, known)|
  {
    DerivationAppend(premises, rules, steps, rules[i]);
    ConclusionsAppend(steps, ReasoningStep(multiset(rules[i].premises), rules[i].conclusion));
    OpenShrinks(rules, known, i);
  }

  /** The first `i` rules hold of `known`. */
  ghost predicate ClosedUpTo(rules: seq<Rule>, i: nat, known: set<Fact>)
    requires i <= |rules|
  {
    forall k :: 0 <= k < i && Applicable(rules[k], known) ==> rules[k].conclusion in known
  }

  /** One pass over the rules. */
  method Scan(rules: seq<Rule>, known0: set<Fact>, steps0: seq<ReasoningStep>, ghost premises: set<Fact>)
      returns (changed: bool, known: set<Fact>, steps: seq<ReasoningStep>)
    requires Reached(premises, rules, steps0, known0)
    ensures Reached(premises, rules, steps, known)
    ensures changed ==> |Open(rules, known)| < |Open(rules, known0)|
    ensures !changed ==> known == known0 && Closed(rules, known)
  {
    changed, known, steps := false, known0, steps0;
    for i := 0 to |rules|
      invariant Reached(premises, rules, steps, known)
      invariant changed ==> |Open(rules, known)| < |Open(rules, known0)|
      invariant !changed ==> known == known0 && ClosedUpTo(rules, i, known)
    {
      var rule := rules[i];
      if rule.conclusion in known {
        continue;
      }
      if FactsOf(rule.premises) <= known {
        Fire(premises, rules, steps, known, i);
        steps := steps + [ReasoningStep(multiset(rule.premises), rule.conclusion)];
        known := known + {rule.conclusion};
        changed := true;
      }
    }
  }

  /** `deduce`: passes until one changes nothing. */
  method Deduce(premises: seq<Fact>, rules: seq<Rule>) returns (steps: seq<ReasoningStep>)
    ensures Derivation(FactsOf(premises), rules, steps)
    ensures Closed(rules, FactsOf(premises) + Conclusions(steps))
  {
    var known := FactsOf(premises);
    steps := [];
    var changed := true;
    while changed
      invariant Reached(FactsOf(premises), rules, steps, known)
      invariant !changed ==> Closed(rules, known)
      decreases |Open(rules, known)|, if changed then 1 else 0
    {
      changed, known, steps := Scan(rules, known, steps, FactsOf(premises));
    }
  }

  lemma OpenShrinks(rules: seq<Rule>, known: set<Fact>, i: nat)
    requires i < |rules| && rules[i].conclusion !in known
    ensures |Open(rules, known + {rules[i].conclusion})| < |Open(rules, known)|
  {
    var f := rules[i].conclusion;
    assert f in Open(rules, known);
    assert Open(rules, known + {f}) == Open(rules, known) - {f};
  }

  // ---------------------------------------------------------------- what a closed derivation is

  lemma {:induction false} DerivationInside(premises: set<Fact>, rules: seq<Rule>, steps: seq<ReasoningStep>,
                                            s: set<Fact>)
    requires Derivation(premises, rules, steps)
    requires premises <= s && Closed(rules, s)
    ensures premises + Conclusions(steps) <= s
    decreases |steps|
  {
    if steps == [] {
      assert Conclusions(steps) == {};
    } else {
      var n := |steps| - 1;
      var init := steps[..n];
      forall k | 0 <= k < n ensures Justified(premises, rules, init, k) {
        assert Justified(premises, rules, steps, k);
        assert init[..k] == steps[..k];
      }
      DerivationInside(premises, rules, init, s);
      assert Justified(premises, rules, steps, n);
      var r :| r in rules && Applicable(r, premises + Conclusions(init))
        && steps[n] == ReasoningStep(multiset(r.premises), r.conclusion);
      assert Applicable(r, s);
      ConclusionsAppend(init, steps[n]);
      assert steps == init + [steps[n]];
    }
  }

  /** `s` contains the premises, is closed under the rules, and is contained in every such set. */
  ghost predicate LeastClosure(premises: set<Fact>, rules: seq<Rule>, s: set<Fact>) {
    && premises <= s && Closed(rules, s)
    && forall other :: premises <= other && Closed(rules, other) ==> s <= other
  }

  /** What `Deduce` computes, and that no conclusion repeats or is a premise. */
  lemma DeduceIsLeastClosure(premises: set<Fact>, rules: seq<Rule>, steps: seq<ReasoningStep>)
    requires Derivation(premises, rules, steps)
    requires Closed(rules, premises + Conclusions(steps))
    ensures LeastClosure(premises, rules, premises + Conclusions(steps))
    ensures premises !! Conclusions(steps)
    ensures forall i, j :: 0 <= i < j < |steps| ==> steps[i].conclusion != steps[j].conclusion
  {
    forall other | premises <= other && Closed(rules, other) ensures premises + Conclusions(steps) <= other {
      DerivationInside(premises, rules, steps, other);
    }
    forall i, j | 0 <= i < j < |steps| ensures steps[i].conclusion != steps[j].conclusion {
      assert Justified(premises, rules, steps, j);
      assert steps[..j][i].conclusion in Conclusions(steps[..j]);
    }
    forall f | f in Conclusions(steps) ensures f !in premises {
      var k :| 0 <= k < |steps| && steps[k].conclusion == f;
      assert Justified(premises, rules, steps, k);
    }
  }

  /** The conclusions depend neither on the order nor on the repetition of premises and rules. */
  lemma OrderIrrelevant(premises: seq<Fact>, premises': seq<Fact>, rules: seq<Rule>, rules': seq<Rule>,
                        steps: seq<ReasoningStep>, steps': seq<ReasoningStep>)
    requires FactsOf(premises) == FactsOf(premises') && forall r :: r in rules <==> r in rules'
    requires Derivation(FactsOf(premises), rules, steps)
    requires Closed(rules, FactsOf(premises) + Conclusions(steps))
    requires Derivation(FactsOf(premises'), rules', steps')
    requires Closed(rules', FactsOf(premises') + Conclusions(steps'))
    ensures Conclusions(steps) == Conclusions(steps')
    ensures |steps| == |steps'|
  {
    var p := FactsOf(premises);
    SameRulesSameClosure(rules, rules', p + Conclusions(steps'));
    SameRulesSameClosure(rules', rules, p + Conclusions(steps));
    DeduceIsLeastClosure(p, rules, steps);
    DeduceIsLeastClosure(p, rules', steps');
    assert p + Conclusions(steps) == p + Conclusions(steps');
    assert Conclusions(steps) == p + Conclusions(steps) - p;
    assert Conclusions(steps') == p + Conclusions(steps') - p;
    CountConclusions(p, rules, steps);
    CountConclusions(p, rules', steps');
  }

  lemma SameRulesSameClosure(rules: seq<Rule>, rules': seq<Rule>, s: set<Fact>)
    requires (forall r :: r in rules <==> r in rules') && Closed(rules', s)
    ensures Closed(rules, s)
  {
    forall k | 0 <= k < |rules| && Applicable(rules[k], s) ensures rules[k].conclusion in s {
      assert rules[k] in rules';
    }
  }

  lemma {:induction false} CountConclusions(premises: set<Fact>, rules: seq<Rule>, steps: seq<ReasoningStep>)
    requires Derivation(premises, rules, steps)
    ensures |Conclusions(steps)| == |steps|
    decreases |steps|
  {
    if steps == [] {
      assert Conclusions(steps) == {};
    } else {
      var n := |steps| - 1;
      var init := steps[..n];
      forall k | 0 <= k < n ensures Justified(premises, rules, init, k) {
        assert Justified(premises, rules, steps, k);
        assert init[..k] == steps[..k];
      }
      CountConclusions(premises, rules, init);
      ConclusionsAppend(init, steps[n]);
      assert steps == init + [steps[n]];
      assert Justified(premises, rules, steps, n);
    }
  }
}
