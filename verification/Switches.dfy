/** A switch that some operations turn on and others off (src/ai/economy.py 90-96). */
module Switches {
  /** Some operation turns it on, and none turns it off afterwards. */
  ghost predicate IsOn<T>(ops: seq<T>, on: T, off: T) {
    exists i :: 0 <= i < |ops| && ops[i] == on && off !in ops[i + 1..]
  }

  lemma IsOnNext<T>(ops: seq<T>, on: T, off: T, n: nat)
    requires n + 1 == |ops| && on != off
    ensures IsOn(ops, on, off) <==> ops[n] == on || (IsOn(ops[..n], on, off) && ops[n] != off)
  {
    var front := ops[..n];
    if IsOn(ops, on, off) && ops[n] != on {
      var i :| 0 <= i < |ops| && ops[i] == on && off !in ops[i + 1..];
      assert ops[i + 1..] == front[i + 1..] + [ops[n]];
      assert front[i] == on && off !in front[i + 1..];
    }
    if ops[n] == on {
      assert ops[n + 1..] == [];
    } else if IsOn(front, on, off) && ops[n] != off {
      var i :| 0 <= i < n && front[i] == on && off !in front[i + 1..];
      assert ops[i + 1..] == front[i + 1..] + [ops[n]];
      assert ops[i] == on && off !in ops[i + 1..];
    }
  }
}
