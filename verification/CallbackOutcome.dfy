/** Overlapping calls on one object: exactly when what it was last given survives them, whatever the order in
    which they end. */
module CallbackOutcome {
  import opened Common
  import opened CallbackModel
  import opened CallbackSteps
  import opened CallbackTheorems

  // ------------------------------------------------------------ completions

  /** The step is no operation on the object: it ends calls under way, or is about other objects. */
  ghost predicate Leaves(s: Sys, step: Step, c: nat)
    requires Enabled(s, step)
  {
    match step
    case Assign(_, d) => d != c
    case Clear(_, d) => d != c
    case Destroy(_, d) => d != c
    case Call(_, d) => d != c
    case CallAndClear(_, d) => d != c
    case Move(_, _, from) => from != c
    case Transfer(t) => s.acts[t].slot != c
    case _ => true
  }

  ghost predicate NoCalls(s: Sys, c: nat)
  {
    forall t :: t in s.acts ==> !CallOn(s.acts[t], c)
  }

  /** The calls on the object come to their ends, with no new operation on it, among any steps about others. */
  ghost predicate Completion(s: Sys, steps: seq<Step>, c: nat)
    decreases |steps|
  {
    if steps == [] then NoCalls(s, c)
    else Known(s) && Enabled(s, steps[0]) && Leaves(s, steps[0], c) && Completion(Next(s, steps[0]), steps[1..], c)
  }

  /** The completion leaves this in the slot of the object. */
  ghost predicate LeavesSlot(s: Sys, steps: seq<Step>, c: nat, v: Slot)
  {
    Run(s, steps) && c in Final(s, steps).slots && Final(s, steps).slots[c] == v
  }

  /** Every call on the object under way carries what the object was last given. */
  ghost predicate AllCarryLatest(s: Sys, c: nat)
  {
    c in s.latest && forall t :: t in s.acts && CallOn(s.acts[t], c) ==> Carries(s.acts[t]) == s.latest[c]
  }

  /** Every object was given something, null included. */
  ghost predicate Given(s: Sys)
  {
    s.latest.Keys == s.slots.Keys
  }

  lemma StepGiven(s: Sys, step: Step)
    requires Known(s) && Given(s) && Enabled(s, step)
    ensures Given(Next(s, step))
  {
  }

  lemma {:induction false} RunGiven(s: Sys, steps: seq<Step>)
    requires Given(s) && Run(s, steps)
    ensures Given(Final(s, steps))
    decreases |steps|
  {
    if steps != [] {
      StepGiven(s, steps[0]);
      RunGiven(Next(s, steps[0]), steps[1..]);
    }
  }

  lemma ReachedGiven(s: Sys)
    requires Reachable(s)
    ensures Given(s)
  {
    var steps :| Run(INITIAL, steps) && s == Final(INITIAL, steps);
    RunGiven(INITIAL, steps);
  }

  // ------------------------------------------------------------ one step of a completion

  /** What a step that leaves the object alone may do to its slot: check back what the step's call carries. */
  lemma StepLeavesSlot(s: Sys, step: Step, c: nat, n: Sys)
    requires Known(s) && Enabled(s, step) && Leaves(s, step, c) && n == Next(s, step) && c in s.slots && c in s.latest
    ensures c in n.slots && c in n.latest && n.latest[c] == s.latest[c]
    ensures n.slots[c] == s.slots[c]
         || (s.slots[c] == CheckedOut && step.Checkback? && CallOn(s.acts[step.act], c) && n.slots[c] == SlotOf(Carries(s.acts[step.act])))
  {
  }

  lemma StepLeavesCalls(s: Sys, step: Step, c: nat, n: Sys, t: nat)
    requires Known(s) && Enabled(s, step) && Leaves(s, step, c) && n == Next(s, step) && t in n.acts && CallOn(n.acts[t], c)
    ensures t in s.acts && CallOn(s.acts[t], c) && Carries(n.acts[t]) == Carries(s.acts[t])
  {
  }

  lemma StepKeepsCarried(s: Sys, step: Step, c: nat, n: Sys)
    requires Known(s) && Enabled(s, step) && Leaves(s, step, c) && n == Next(s, step) && c in s.slots && AllCarryLatest(s, c)
    ensures AllCarryLatest(n, c)
  {
    StepLeavesSlot(s, step, c, n);
    forall t | t in n.acts && CallOn(n.acts[t], c) ensures Carries(n.acts[t]) == n.latest[c] {
      StepLeavesCalls(s, step, c, n, t);
    }
  }

  // ------------------------------------------------------------ whole completions

  /** A slot that is not checked out is left as it is. */
  lemma {:induction false} KeptIfNotOut(s: Sys, steps: seq<Step>, c: nat)
    requires c in s.slots && c in s.latest && s.slots[c] != CheckedOut && Completion(s, steps, c)
    ensures LeavesSlot(s, steps, c, s.slots[c])
    decreases |steps|
  {
    if steps != [] {
      StepLeavesSlot(s, steps[0], c, Next(s, steps[0]));
      KeptIfNotOut(Next(s, steps[0]), steps[1..], c);
    }
  }

  lemma {:induction false} LatestIfCarried(s: Sys, steps: seq<Step>, c: nat)
    requires Inv(s) && c in s.slots && AllCarryLatest(s, c) && s.slots[c] == CheckedOut && Completion(s, steps, c)
    ensures LeavesSlot(s, steps, c, SlotOf(s.latest[c]))
    decreases |steps|
  {
    if steps != [] {
      var n := Next(s, steps[0]);
      StepKeepsInv(s, steps[0]);
      StepLeavesSlot(s, steps[0], c, n);
      StepKeepsCarried(s, steps[0], c, n);
      if n.slots[c] == CheckedOut {
        LatestIfCarried(n, steps[1..], c);
      } else {
        KeptIfNotOut(n, steps[1..], c);
      }
    }
  }

  // ------------------------------------------------------------ a completion, with a given call first

  ghost function CallsOn(s: Sys, c: nat): set<nat>
  {
    set t | t in s.acts && CallOn(s.acts[t], c)
  }

  lemma AfterReturn(s: Sys, t: nat) returns (n: Sys)
    requires Inv(s) && Known(s) && Given(s) && t in s.acts && s.acts[t].Running?
    ensures Enabled(s, Return(t)) && n == Next(s, Return(t)) && Inv(n) && Known(n) && Given(n)
    ensures n.slots == s.slots && n.latest == s.latest
    ensures n.acts == s.acts[t := Returning(s.acts[t].slot, Some(s.acts[t].cb))]
  {
    StepKeepsInv(s, Return(t));
    StepGiven(s, Return(t));
    n := Next(s, Return(t));
    InvKnown(n);
  }

  /** The call checks in, and either was the one to or is disposing. */
  lemma AfterBack(s: Sys, t: nat, c: nat) returns (n: Sys)
    requires Inv(s) && Known(s) && Given(s) && t in s.acts && s.acts[t].Returning? && s.acts[t].slot == c
    ensures Enabled(s, Checkback(t)) && n == Next(s, Checkback(t)) && Inv(n) && Known(n) && Given(n)
    ensures c in s.slots && n.latest == s.latest
    ensures n.slots == s.slots[c := if s.slots[c] == CheckedOut then SlotOf(s.acts[t].back) else s.slots[c]]
    ensures CallsOn(n, c) == CallsOn(s, c) - {t}
  {
    assert Uses(s.acts[t], c);
    StepKeepsInv(s, Checkback(t));
    StepGiven(s, Checkback(t));
    n := Next(s, Checkback(t));
    InvKnown(n);
    BackEnds(s, t, c, n);
  }

  lemma BackEnds(s: Sys, t: nat, c: nat, n: Sys)
    requires Known(s) && Enabled(s, Checkback(t)) && s.acts[t].slot == c && n == Next(s, Checkback(t))
    ensures n.slots == s.slots[c := if s.slots[c] == CheckedOut then SlotOf(s.acts[t].back) else s.slots[c]]
    ensures CallsOn(n, c) == CallsOn(s, c) - {t}
  {
  }

  /** Some completion leaves this in the slot. */
  ghost predicate CanLeave(s: Sys, c: nat, v: Slot)
  {
    exists steps :: Completion(s, steps, c) && LeavesSlot(s, steps, c, v)
  }

  lemma Prepend(s: Sys, step: Step, c: nat, v: Slot)
    requires Known(s) && Enabled(s, step) && Leaves(s, step, c) && CanLeave(Next(s, step), c, v)
    ensures CanLeave(s, c, v)
  {
    var n := Next(s, step);
    var rest :| Completion(n, rest, c) && LeavesSlot(n, rest, c, v);
    var steps := [step] + rest;
    assert steps[0] == step && steps[1..] == rest;
    assert Completion(s, steps, c) && LeavesSlot(s, steps, c, v);
  }

  /** A call that has run its callback ends. */
  lemma ReturnedCallEnds(s: Sys, t: nat, c: nat, v: Slot) returns (n: Sys)
    requires Inv(s) && Known(s) && Given(s) && t in s.acts && s.acts[t].Returning? && s.acts[t].slot == c
    ensures Inv(n) && Known(n) && Given(n) && c in s.slots && n.latest == s.latest
    ensures n.slots == s.slots[c := if s.slots[c] == CheckedOut then SlotOf(s.acts[t].back) else s.slots[c]]
    ensures CallsOn(n, c) == CallsOn(s, c) - {t}
    ensures CanLeave(n, c, v) ==> CanLeave(s, c, v)
  {
    n := AfterBack(s, t, c);
    if CanLeave(n, c, v) {
      Prepend(s, Checkback(t), c, v);
    }
  }

  /** A call in its callback gets there. */
  lemma RunningCallReturns(s: Sys, t: nat, c: nat, v: Slot) returns (m: Sys)
    requires Inv(s) && Known(s) && Given(s) && t in s.acts && s.acts[t].Running? && s.acts[t].slot == c
    ensures Inv(m) && Known(m) && Given(m) && m.slots == s.slots && m.latest == s.latest
    ensures t in m.acts && m.acts[t] == Returning(c, Carries(s.acts[t])) && CallsOn(m, c) == CallsOn(s, c)
    ensures CanLeave(m, c, v) ==> CanLeave(s, c, v)
  {
    m := AfterReturn(s, t);
    SameCalls(s, t, c, m);
    if CanLeave(m, c, v) {
      Prepend(s, Return(t), c, v);
    }
  }

  lemma SameCalls(s: Sys, t: nat, c: nat, m: Sys)
    requires t in s.acts && CallOn(s.acts[t], c) && m.acts.Keys == s.acts.Keys
    requires forall u :: u in s.acts && u != t ==> m.acts[u] == s.acts[u]
    requires t in m.acts && CallOn(m.acts[t], c)
    ensures CallsOn(m, c) == CallsOn(s, c)
  {
  }

  /** The call of `t` ends. */
  lemma CallEnds(s: Sys, t: nat, c: nat, v: Slot) returns (n: Sys)
    requires Inv(s) && Known(s) && Given(s) && t in s.acts && CallOn(s.acts[t], c)
    ensures Inv(n) && Known(n) && Given(n) && c in s.slots && n.latest == s.latest
    ensures n.slots == s.slots[c := if s.slots[c] == CheckedOut then SlotOf(Carries(s.acts[t])) else s.slots[c]]
    ensures CallsOn(n, c) == CallsOn(s, c) - {t}
    ensures CanLeave(n, c, v) ==> CanLeave(s, c, v)
  {
    if s.acts[t].Running? {
      var m := RunningCallReturns(s, t, c, v);
      n := ReturnedCallEnds(m, t, c, v);
    } else {
      n := ReturnedCallEnds(s, t, c, v);
    }
  }

  lemma {:induction false} OthersEnd(s: Sys, c: nat)
    requires Inv(s) && Known(s) && Given(s) && c in s.slots && s.slots[c] != CheckedOut
    ensures CanLeave(s, c, s.slots[c])
    decreases |CallsOn(s, c)|
  {
    if t :| t in CallsOn(s, c) {
      var n := CallEnds(s, t, c, s.slots[c]);
      OthersEnd(n, c);
    } else {
      assert NoCalls(s, c) by {
        assert forall t :: t in s.acts && CallOn(s.acts[t], c) ==> t in CallsOn(s, c);
      }
      assert Completion(s, [], c) && LeavesSlot(s, [], c, s.slots[c]);
    }
  }

  /** Any of the calls may be the first to end, and then what it carries stays. */
  lemma FirstToEndStays(s: Sys, t: nat, c: nat)
    requires Inv(s) && Known(s) && Given(s) && t in s.acts && CallOn(s.acts[t], c) && c in s.slots && s.slots[c] == CheckedOut
    ensures CanLeave(s, c, SlotOf(Carries(s.acts[t])))
  {
    var n := CallEnds(s, t, c, SlotOf(Carries(s.acts[t])));
    OthersEnd(n, c);
  }

  // ------------------------------------------------------------ the exact condition

  /** While an object is checked out, every way for the calls on it to end leaves what it was last given
      exactly if every one of those calls carries just that. */
  lemma LatestSurvivesIff(s: Sys, c: nat)
    requires Reachable(s) && c in s.slots && s.slots[c] == CheckedOut
    ensures c in s.latest
    ensures AllCarryLatest(s, c) <==>
            forall steps :: Completion(s, steps, c) ==> LeavesSlot(s, steps, c, SlotOf(s.latest[c]))
  {
    Reached(s);
    ReachedGiven(s);
    if AllCarryLatest(s, c) {
      forall steps | Completion(s, steps, c) ensures LeavesSlot(s, steps, c, SlotOf(s.latest[c])) {
        LatestIfCarried(s, steps, c);
      }
    } else {
      var t :| t in s.acts && CallOn(s.acts[t], c) && Carries(s.acts[t]) != s.latest[c];
      FirstToEndStays(s, t, c);
      var steps :| Completion(s, steps, c) && LeavesSlot(s, steps, c, SlotOf(Carries(s.acts[t])));
      assert !LeavesSlot(s, steps, c, SlotOf(s.latest[c]));
    }
  }

  /** While it is not, every way leaves what is there, and there is such a way. */
  lemma NotOutIsKept(s: Sys, c: nat)
    requires Reachable(s) && c in s.slots && s.slots[c] != CheckedOut
    ensures CanLeave(s, c, s.slots[c])
    ensures forall steps :: Completion(s, steps, c) ==> LeavesSlot(s, steps, c, s.slots[c])
  {
    Reached(s);
    ReachedGiven(s);
    OthersEnd(s, c);
    forall steps | Completion(s, steps, c) ensures LeavesSlot(s, steps, c, s.slots[c]) {
      KeptIfNotOut(s, steps, c);
    }
  }
}
