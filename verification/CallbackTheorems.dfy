/** What holds of callbacks in every run, over every interleaving, and when the latest replacement wins. */
module CallbackTheorems {
  import opened Common
  import opened CallbackModel
  import opened CallbackSteps

  lemma StepKeepsInv(s: Sys, step: Step)
    requires Inv(s) && Known(s) && Enabled(s, step)
    ensures Inv(Next(s, step))
  {
    StepOwned(s, step, Next(s, step));
    StepLogOk(s, step, Next(s, step));
    StepOutsPending(s, step, Next(s, step));
    StepSlotsAlive(s, step, Next(s, step));
  }

  lemma {:induction false} RunKeepsInv(s: Sys, steps: seq<Step>)
    requires Inv(s) && Run(s, steps)
    ensures Inv(Final(s, steps))
    decreases |steps|
  {
    if steps != [] {
      StepKeepsInv(s, steps[0]);
      RunKeepsInv(Next(s, steps[0]), steps[1..]);
    }
  }

  ghost predicate Reachable(s: Sys)
  {
    exists steps :: Run(INITIAL, steps) && s == Final(INITIAL, steps)
  }

  lemma Reached(s: Sys)
    requires Reachable(s)
    ensures Inv(s) && Known(s)
  {
    var steps :| Run(INITIAL, steps) && s == Final(INITIAL, steps);
    assert Inv(INITIAL);
    RunKeepsInv(INITIAL, steps);
    InvKnown(s);
  }

  // ------------------------------------------------------------ ownership

  lemma HolderHolds(s: Sys, id: Id)
    requires Owned(s) && LogOk(s.log, s.holder) && id < |s.holder|
    ensures Holds(s, s.holder[id], id)
  {
  }

  lemma HolderOnly(s: Sys, id: Id, x: Holder)
    requires Owned(s) && LogOk(s.log, s.holder) && id < |s.holder| && Holds(s, x, id)
    ensures x == s.holder[id]
  {
  }

  /** Every callback ever handed over is, at every moment, in exactly one place: a slot, one operation,
      or deleted. */
  lemma ExactlyOneHolder(s: Sys, id: Id) returns (h: Holder)
    requires Reachable(s) && id < |s.holder|
    ensures Holds(s, h, id) && forall x :: Holds(s, x, id) ==> x == h
  {
    Reached(s);
    h := s.holder[id];
    HolderHolds(s, id);
    forall x | Holds(s, x, id) ensures x == h {
      HolderOnly(s, id, x);
    }
  }

  lemma {:induction false} QuietAfterDelete(log: seq<Event>, i: nat, j: nat)
    requires NothingAfterDelete(log) && i < j < |log| && log[i].Deleted?
    ensures log[j].id != log[i].id
  {
    if j < |log| - 1 {
      QuietAfterDelete(log[..|log| - 1], i, j);
    } else {
      assert log[..j][i] == log[i];
    }
  }

  /** After a callback is deleted it is neither begun, nor still running, nor deleted again. */
  lemma NeverUsedAfterDelete(s: Sys, i: nat, j: nat)
    requires Reachable(s) && i < j < |s.log| && s.log[i].Deleted?
    ensures s.log[j].id != s.log[i].id
  {
    Reached(s);
    QuietAfterDelete(s.log, i, j);
  }

  /** Nothing leaks: when every `Callback` object is gone and no operation is under way, every callback ever
      handed over has been deleted. */
  lemma NothingLeaks(s: Sys, id: Id)
    requires Reachable(s) && s.slots == map[] && s.acts == map[] && id < |s.holder|
    ensures Deleted(id) in s.log
  {
    Reached(s);
  }

  /** No object stays checked out for ever: some call on it has still to check back. */
  lemma CheckedOutIsPending(s: Sys, c: nat)
    requires Reachable(s) && c in s.slots && s.slots[c] == CheckedOut
    ensures exists t :: t in s.acts && CallOn(s.acts[t], c)
  {
    Reached(s);
  }

  // ------------------------------------------------------------ when the latest replacement wins

  /** No object is called while a call on it is under way. */
  ghost predicate Orderly(s: Sys, step: Step)
  {
    step.Call? ==> forall t :: t in s.acts ==> !CallOn(s.acts[t], step.slot)
  }

  ghost predicate OrderlyRun(s: Sys, steps: seq<Step>)
    requires Run(s, steps)
    decreases |steps|
  {
    steps == [] || (Orderly(s, steps[0]) && OrderlyRun(Next(s, steps[0]), steps[1..]))
  }

  ghost predicate OneCall(acts: map<nat, Act>)
  {
    forall t, u, c :: t in acts && u in acts && CallOn(acts[t], c) && CallOn(acts[u], c) ==> t == u
  }

  /** A slot holds what was last put there, or the one call on it does. */
  ghost predicate Latest(s: Sys)
  {
    forall c :: c in s.slots ==>
      && c in s.latest
      && (s.slots[c] != CheckedOut ==> s.slots[c] == SlotOf(s.latest[c]))
      && (s.slots[c] == CheckedOut ==> forall t :: t in s.acts && CallOn(s.acts[t], c) ==> Carries(s.acts[t]) == s.latest[c])
  }

  lemma StepOneCall(s: Sys, step: Step, n: Sys)
    requires Known(s) && OneCall(s.acts) && Enabled(s, step) && Orderly(s, step) && n == Next(s, step)
    ensures OneCall(n.acts)
  {
    assert forall t, c :: t in n.acts && CallOn(n.acts[t], c) ==>
      (t in s.acts && CallOn(s.acts[t], c)) || (step.Call? && t == step.act && c == step.slot);
  }

  lemma CallLatest(s: Sys, t: nat, c: nat, n: Sys)
    requires Inv(s) && Known(s) && Latest(s) && Enabled(s, Call(t, c)) && Orderly(s, Call(t, c)) && n == Next(s, Call(t, c))
    ensures Latest(n)
  {
    assert s.slots[c] != CheckedOut;
  }

  lemma CheckbackLatest(s: Sys, t: nat, n: Sys)
    requires Known(s) && Latest(s) && OneCall(s.acts) && Enabled(s, Checkback(t)) && n == Next(s, Checkback(t))
    ensures Latest(n)
  {
    var c := s.acts[t].slot;
    assert CallOn(s.acts[t], c);
  }

  /** Calls under way afterwards were so before, with the same callback. */
  ghost predicate CallsOld(acts: map<nat, Act>, after: map<nat, Act>)
  {
    forall t, c :: t in after && CallOn(after[t], c) ==>
      t in acts && CallOn(acts[t], c) && Carries(after[t]) == Carries(acts[t])
  }

  /** A slot is as it was, or holds what it was given. */
  ghost predicate SlotKept(s: Sys, n: Sys, c: nat)
    requires c in n.slots
  {
    || (c in s.slots && n.slots[c] == s.slots[c] && (c in s.latest ==> c in n.latest && n.latest[c] == s.latest[c]))
    || (c in n.latest && n.slots[c] == SlotOf(n.latest[c]))
  }

  ghost predicate SlotsKept(s: Sys, n: Sys)
  {
    forall c :: c in n.slots ==> SlotKept(s, n, c)
  }

  lemma OneSlotKept(s: Sys, step: Step, n: Sys, c: nat)
    requires Known(s) && Enabled(s, step) && n == Next(s, step) && !step.Call? && !step.Checkback? && c in n.slots
    ensures SlotKept(s, n, c)
  {
  }

  lemma OtherCallsOld(s: Sys, step: Step, n: Sys)
    requires Known(s) && Enabled(s, step) && n == Next(s, step) && !step.Call?
    ensures CallsOld(s.acts, n.acts)
  {
  }

  lemma OtherSlotsKept(s: Sys, step: Step, n: Sys)
    requires Known(s) && Enabled(s, step) && n == Next(s, step) && !step.Call? && !step.Checkback?
    ensures SlotsKept(s, n)
  {
    forall c | c in n.slots ensures SlotKept(s, n, c) {
      OneSlotKept(s, step, n, c);
    }
  }

  lemma KeptLatest(s: Sys, n: Sys)
    requires Latest(s) && CallsOld(s.acts, n.acts) && SlotsKept(s, n)
    ensures Latest(n)
  {
  }

  lemma OtherLatest(s: Sys, step: Step, n: Sys)
    requires Known(s) && Latest(s) && Enabled(s, step) && n == Next(s, step) && !step.Call? && !step.Checkback?
    ensures Latest(n)
  {
    OtherCallsOld(s, step, n);
    OtherSlotsKept(s, step, n);
    KeptLatest(s, n);
  }

  lemma StepLatest(s: Sys, step: Step, n: Sys)
    requires Inv(s) && Known(s) && Latest(s) && OneCall(s.acts) && Enabled(s, step) && Orderly(s, step) && n == Next(s, step)
    ensures Latest(n)
  {
    match step
    case Call(t, c) => CallLatest(s, t, c, n);
    case Checkback(t) => CheckbackLatest(s, t, n);
    case _ => OtherLatest(s, step, n);
  }

  lemma {:induction false} RunLatest(s: Sys, steps: seq<Step>)
    requires Inv(s) && Latest(s) && OneCall(s.acts) && Run(s, steps) && OrderlyRun(s, steps)
    ensures Latest(Final(s, steps))
    decreases |steps|
  {
    if steps != [] {
      StepKeepsInv(s, steps[0]);
      StepOneCall(s, steps[0], Next(s, steps[0]));
      StepLatest(s, steps[0], Next(s, steps[0]));
      RunLatest(Next(s, steps[0]), steps[1..]);
    }
  }

  /** If no object is ever called while a call on it is under way, then whenever none is, the object holds
      what it was last given. */
  lemma LatestWins(steps: seq<Step>, c: nat)
    requires Run(INITIAL, steps) && OrderlyRun(INITIAL, steps)
    requires var s := Final(INITIAL, steps); c in s.slots && forall t :: t in s.acts ==> !CallOn(s.acts[t], c)
    ensures var s := Final(INITIAL, steps); c in s.latest && s.slots[c] == SlotOf(s.latest[c])
  {
    assert Inv(INITIAL);
    RunLatest(INITIAL, steps);
    RunKeepsInv(INITIAL, steps);
  }

  // ------------------------------------------------------------ and when it does not

  lemma {:induction false} RunSnoc(s: Sys, steps: seq<Step>, step: Step)
    requires Run(s, steps) && Known(Final(s, steps)) && Enabled(Final(s, steps), step)
    ensures Run(s, steps + [step]) && Final(s, steps + [step]) == Next(Final(s, steps), step)
    decreases |steps|
  {
    if steps == [] {
      assert [step][1..] == [];
      assert Run(Next(s, step), []) && Final(Next(s, step), []) == Next(s, step);
    } else {
      RunSnoc(Next(s, steps[0]), steps[1..], step);
      assert (steps + [step])[1..] == steps[1..] + [step];
    }
  }

  lemma Reach(s: Sys, step: Step)
    requires Reachable(s) && Enabled(s, step)
    ensures Known(s) && Reachable(Next(s, step))
  {
    Reached(s);
    var steps :| Run(INITIAL, steps) && s == Final(INITIAL, steps);
    RunSnoc(INITIAL, steps, step);
  }

  lemma ReachCall(s: Sys, t: nat, c: nat, id: Id)
    requires Reachable(s) && t !in s.acts && c in s.slots && s.slots[c] == Cb(id) && id < |s.holder|
    ensures Reachable(s.(slots := s.slots[c := CheckedOut], acts := s.acts[t := Running(c, id)],
                         holder := s.holder[id := InAct(t)], log := s.log + [Begin(id)]))
  {
    Reach(s, Call(t, c));
  }

  lemma ReachIdleCall(s: Sys, t: nat, c: nat)
    requires Reachable(s) && t !in s.acts && c in s.slots && s.slots[c] == CheckedOut
    ensures Reachable(s.(slots := s.slots[c := CheckedOut], acts := s.acts[t := Returning(c, None)]))
  {
    Reach(s, Call(t, c));
  }

  lemma ReachAssign(s: Sys, t: nat, c: nat)
    requires Reachable(s) && t !in s.acts && c in s.slots && s.slots[c] == CheckedOut
    ensures Reachable(Install(s, c))
  {
    Reach(s, Assign(t, c));
    assert s.acts - {t} == s.acts;
  }

  lemma ReachReturn(s: Sys, t: nat, c: nat, id: Id)
    requires Reachable(s) && t in s.acts && s.acts[t] == Running(c, id)
    ensures Reachable(s.(acts := s.acts[t := Returning(c, Some(id))], log := s.log + [End(id)]))
  {
    Reach(s, Return(t));
    Reached(s);
    assert s.holder[id := InAct(t)] == s.holder;
  }

  /** `checkback` that finds the mark. */
  lemma ReachCheckedIn(s: Sys, t: nat, c: nat, back: Option<Id>)
    requires Reachable(s) && t in s.acts && s.acts[t] == Returning(c, back) && c in s.slots && s.slots[c] == CheckedOut
    requires back.Some? ==> back.value < |s.holder|
    ensures Reachable(s.(slots := s.slots[c := SlotOf(back)], acts := s.acts - {t},
                         holder := if back.Some? then s.holder[back.value := InSlot(c)] else s.holder))
  {
    Reach(s, Checkback(t));
  }

  lemma ReachDeleted(s: Sys, t: nat, c: nat, id: Id) returns (n: Sys)
    requires Reachable(s) && t in s.acts && s.acts[t] == Returning(c, Some(id)) && c in s.slots && s.slots[c] != CheckedOut
    ensures Reachable(n) && n.acts == s.acts - {t} && n.slots == s.slots && n.latest == s.latest && Deleted(id) in n.log
  {
    Reach(s, Checkback(t));
    Reached(s);
    var m := Next(s, Checkback(t));
    assert m.acts == s.acts[t := Disposing(id)] && m.slots == s.slots && m.latest == s.latest;
    Reach(m, Dispose(t));
    n := Next(m, Dispose(t));
    assert n.acts == s.acts - {t};
  }

  /** `n` is what the step makes of `s`. */
  ghost predicate Steps(s: Sys, x: Step, n: Sys)
  {
    Known(s) && Enabled(s, x) && n == Next(s, x)
  }

  lemma CallSteps(s: Sys, t: nat, c: nat, n: Sys)
    requires Reachable(s) && Known(s) && c in s.slots && t !in s.acts && n == AfterCall(s, t, c)
    ensures Steps(s, Call(t, c), n) && Reachable(n) && n.slots == s.slots[c := CheckedOut]
    ensures n.acts == s.acts[t := if s.slots[c].Cb? then Running(c, s.slots[c].id) else Returning(c, None)]
  {
    Reach(s, Call(t, c));
  }

  lemma ReturnSteps(s: Sys, t: nat, c: nat, id: Id) returns (n: Sys)
    requires Reachable(s) && t in s.acts && s.acts[t] == Running(c, id)
    ensures Steps(s, Return(t), n) && Reachable(n) && n.slots == s.slots && n.acts == s.acts[t := Returning(c, Some(id))]
  {
    Reach(s, Return(t));
    n := Next(s, Return(t));
  }

  lemma CheckbackSteps(s: Sys, t: nat, c: nat, back: Option<Id>) returns (n: Sys)
    requires Reachable(s) && t in s.acts && s.acts[t] == Returning(c, back) && c in s.slots && s.slots[c] == CheckedOut
    ensures Steps(s, Checkback(t), n) && n.slots == s.slots[c := SlotOf(back)] && n.acts == s.acts - {t}
  {
    Reached(s);
    n := Next(s, Checkback(t));
  }

  lemma BackAgain(s: Sys, t: nat, c: nat, a: Act)
    requires c in s.slots && t !in s.acts
    ensures s.acts[t := a] - {t} == s.acts
    ensures s.slots[c := CheckedOut][c := s.slots[c]] == s.slots
    ensures s.slots[c := CheckedOut][c := Null] == s.slots[c := Null]
  {
  }

  /** A call on an object with no interleaved step: `m` after the checkout, `p` after the callback, if any, ran. */
  ghost predicate CalledAlone(s: Sys, t: nat, c: nat, m: Sys, p: Sys, n: Sys)
  {
    && c in s.slots && Steps(s, Call(t, c), m)
    && (if s.slots[c].Cb? then Steps(m, Return(t), p) else p == m)
    && Steps(p, Checkback(t), n)
  }

  lemma IdleCall(s: Sys, t: nat, c: nat) returns (m: Sys, n: Sys)
    requires Reachable(s) && c in s.slots && t !in s.acts && !s.slots[c].Cb?
    ensures Steps(s, Call(t, c), m) && Steps(m, Checkback(t), n)
    ensures n.slots == s.slots[c := Null] && n.acts == s.acts
  {
    Reached(s);
    m := AfterCall(s, t, c);
    CallSteps(s, t, c, m);
    n := CheckbackSteps(m, t, c, None);
    BackAgain(s, t, c, Returning(c, None));
  }

  lemma ReturnsAlone(m: Sys, t: nat, c: nat, id: Id) returns (p: Sys, n: Sys)
    requires Reachable(m) && t in m.acts && m.acts[t] == Running(c, id) && c in m.slots && m.slots[c] == CheckedOut
    ensures Steps(m, Return(t), p) && Steps(p, Checkback(t), n)
    ensures n.slots == m.slots[c := Cb(id)] && n.acts == m.acts - {t}
  {
    p := ReturnSteps(m, t, c, id);
    n := CheckbackSteps(p, t, c, Some(id));
    assert m.acts[t := Returning(c, Some(id))] - {t} == m.acts - {t};
  }

  lemma BusyCall(s: Sys, t: nat, c: nat, id: Id) returns (m: Sys, p: Sys, n: Sys)
    requires Reachable(s) && c in s.slots && t !in s.acts && s.slots[c] == Cb(id)
    ensures Steps(s, Call(t, c), m) && Steps(m, Return(t), p) && Steps(p, Checkback(t), n)
    ensures n.slots == s.slots && n.acts == s.acts
  {
    Reached(s);
    m := AfterCall(s, t, c);
    CallSteps(s, t, c, m);
    p, n := ReturnsAlone(m, t, c, id);
    BackAgain(s, t, c, Running(c, id));
  }

  /** A call that nothing interleaves with leaves every slot as it was exactly if it was not made during
      another call on the same object: then it leaves null, and what is being called is lost. */
  lemma CallKeepsIff(s: Sys, t: nat, c: nat) returns (m: Sys, p: Sys, n: Sys)
    requires Reachable(s) && c in s.slots && t !in s.acts
    ensures CalledAlone(s, t, c, m, p, n)
    ensures n.acts == s.acts && (n.slots == s.slots <==> s.slots[c] != CheckedOut)
  {
    if s.slots[c].Cb? {
      m, p, n := BusyCall(s, t, c, s.slots[c].id);
    } else {
      m, n := IdleCall(s, t, c);
      p := m;
      assert s.slots[c] == CheckedOut ==> s.slots[c := Null][c] != s.slots[c];
    }
  }

  /** One object with callback 0, being called by operation 0. */
  lemma Called() returns (s: Sys)
    ensures Reachable(s)
    ensures s == Sys(map[0 := CheckedOut], map[0 := Running(0, 0)], [InAct(0)], [Begin(0)], map[0 := Some(0)])
  {
    assert Run(INITIAL, []) && Final(INITIAL, []) == INITIAL;
    Reach(INITIAL, CreateWith(0));
    s := Install(INITIAL, 0);
    ReachCall(s, 0, 0, 0);
    s := s.(slots := s.slots[0 := CheckedOut], acts := s.acts[0 := Running(0, 0)],
            holder := s.holder[0 := InAct(0)], log := s.log + [Begin(0)]);
  }

  lemma CalledWithin() returns (s: Sys)
    ensures Reachable(s)
    ensures s == Sys(map[0 := Null], map[0 := Running(0, 0)], [InAct(0)], [Begin(0)], map[0 := Some(0)])
  {
    var s0 := Called();
    ReachIdleCall(s0, 1, 0);
    var s1 := s0.(slots := s0.slots[0 := CheckedOut], acts := s0.acts[1 := Returning(0, None)]);
    ReachCheckedIn(s1, 1, 0, None);
    s := s1.(slots := s1.slots[0 := Null], acts := s1.acts - {1});
    assert s.acts == map[0 := Running(0, 0)];
  }

  /** A call from within the callback loses it: the inner call checks null back in, so the outer one finds no
      mark to replace and deletes what nobody had replaced. */
  lemma NestedCallLoses() returns (s: Sys)
    ensures Reachable(s) && s.acts == map[] && s.slots == map[0 := Null] && s.latest == map[0 := Some(0)]
    ensures Deleted(0) in s.log
  {
    var s0 := CalledWithin();
    ReachReturn(s0, 0, 0, 0);
    s := ReachDeleted(s0.(acts := s0.acts[0 := Returning(0, Some(0))], log := s0.log + [End(0)]), 0, 0, 0);
  }

  lemma ReplacedMeanwhile() returns (s: Sys)
    ensures Reachable(s)
    ensures s == Sys(map[0 := Cb(1)], map[0 := Running(0, 0)], [InAct(0), InSlot(0)], [Begin(0)], map[0 := Some(1)])
  {
    var s0 := Called();
    ReachAssign(s0, 1, 0);
    s := Install(s0, 0);
  }

  lemma CalledReplaced() returns (s: Sys)
    ensures Reachable(s)
    ensures s == Sys(map[0 := CheckedOut], map[0 := Running(0, 0), 2 := Running(0, 1)], [InAct(0), InAct(2)],
                     [Begin(0), Begin(1)], map[0 := Some(1)])
  {
    var s1 := ReplacedMeanwhile();
    ReachCall(s1, 2, 0, 1);
    s := s1.(slots := s1.slots[0 := CheckedOut], acts := s1.acts[2 := Running(0, 1)],
             holder := s1.holder[1 := InAct(2)], log := s1.log + [Begin(1)]);
  }

  lemma OldCheckedIn() returns (s: Sys)
    ensures Reachable(s)
    ensures s.slots == map[0 := Cb(0)] && s.acts == map[2 := Running(0, 1)] && s.latest == map[0 := Some(1)]
  {
    var s0 := CalledReplaced();
    ReachReturn(s0, 0, 0, 0);
    var s1 := s0.(acts := s0.acts[0 := Returning(0, Some(0))], log := s0.log + [End(0)]);
    ReachCheckedIn(s1, 0, 0, Some(0));
    s := s1.(slots := s1.slots[0 := Cb(0)], acts := s1.acts - {0}, holder := s1.holder[0 := InSlot(0)]);
    assert s.acts == map[2 := Running(0, 1)];
  }

  /** A second call of the replacement lets the first call check the old callback back in: the mark it finds
      is not its own. The replacement is deleted. */
  lemma OldOneReturns() returns (s: Sys)
    ensures Reachable(s) && s.acts == map[] && s.slots == map[0 := Cb(0)] && s.latest == map[0 := Some(1)]
    ensures Deleted(1) in s.log
  {
    var s0 := OldCheckedIn();
    ReachReturn(s0, 2, 0, 1);
    s := ReachDeleted(s0.(acts := s0.acts[2 := Returning(0, Some(1))], log := s0.log + [End(1)]), 2, 0, 1);
  }
}
