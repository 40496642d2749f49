/** What the pieces of a step do to ownership, and that every step keeps the invariant. */
module CallbackSteps {
  import opened Common
  import opened CallbackModel

  function IdSet(o: Option<Id>): set<Id>
  {
    if o.Some? then {o.value} else {}
  }

  // ------------------------------------------------------------ the pieces

  lemma TakeSlot(slots: map<nat, Slot>, acts: map<nat, Act>, holder: seq<Holder>, c: nat, v: Slot)
    requires OwnedBut(slots, acts, holder, {}) && !v.Cb? && c in slots
    ensures OwnedBut(slots[c := v], acts, holder, IdSet(Held(slots[c])))
    ensures OwnedBut(slots - {c}, acts, holder, IdSet(Held(slots[c])))
  {
  }

  lemma AddSlot(slots: map<nat, Slot>, acts: map<nat, Act>, holder: seq<Holder>, c: nat)
    requires OwnedBut(slots, acts, holder, {}) && c !in slots
    ensures OwnedBut(slots[c := Null], acts, holder, {})
  {
  }

  lemma NewInSlot(slots: map<nat, Slot>, acts: map<nat, Act>, holder: seq<Holder>, hands: set<Id>, c: nat)
    requires OwnedBut(slots, acts, holder, hands) && (c in slots ==> !slots[c].Cb?)
    ensures OwnedBut(slots[c := Cb(|holder|)], acts, holder + [InSlot(c)], hands)
  {
  }

  lemma GiveSlot(slots: map<nat, Slot>, acts: map<nat, Act>, holder: seq<Holder>, hands: set<Id>, c: nat, id: Id)
    requires OwnedBut(slots, acts, holder, hands) && c in slots && !slots[c].Cb? && id in hands
    ensures OwnedBut(slots[c := Cb(id)], acts, holder[id := InSlot(c)], hands - {id})
  {
  }

  lemma GiveAct(slots: map<nat, Slot>, acts: map<nat, Act>, holder: seq<Holder>, t: nat, a: Act, id: Id)
    requires OwnedBut(slots, acts, holder, {id}) && t !in acts && Carries(a) == Some(id)
    ensures OwnedBut(slots, acts[t := a], holder[id := InAct(t)], {})
  {
  }

  lemma EmptyAct(slots: map<nat, Slot>, acts: map<nat, Act>, holder: seq<Holder>, t: nat, a: Act)
    requires OwnedBut(slots, acts, holder, {}) && t !in acts && Carries(a) == None
    ensures OwnedBut(slots, acts[t := a], holder, {})
  {
  }

  lemma DropAct(slots: map<nat, Slot>, acts: map<nat, Act>, holder: seq<Holder>, hands: set<Id>, t: nat)
    requires OwnedBut(slots, acts, holder, hands) && t in acts
    ensures OwnedBut(slots, acts - {t}, holder, hands + IdSet(Carries(acts[t])))
  {
  }

  lemma SameAct(slots: map<nat, Slot>, acts: map<nat, Act>, holder: seq<Holder>, t: nat, a: Act)
    requires OwnedBut(slots, acts, holder, {}) && t in acts && Carries(a) == Carries(acts[t])
    ensures OwnedBut(slots, acts[t := a], holder, {})
  {
  }

  lemma Bury(slots: map<nat, Slot>, acts: map<nat, Act>, holder: seq<Holder>, id: Id)
    requires OwnedBut(slots, acts, holder, {id})
    ensures OwnedBut(slots, acts, holder[id := Gone], {})
  {
  }

  /** A new operation takes what is in hand. */
  lemma Takes(s: Sys, t: nat, a: Option<Act>, n: Sys)
    requires t !in s.acts
    requires OwnedBut(s.slots, s.acts, s.holder, if a.Some? then IdSet(Carries(a.value)) else {})
    requires a.Some? && Carries(a.value).Some? ==> Carries(a.value).value < |s.holder|
    requires n == Continue(s, t, a)
    ensures Owned(n)
  {
    if a.Some? {
      match Carries(a.value)
      case None => EmptyAct(s.slots, s.acts, s.holder, t, a.value);
      case Some(id) => GiveAct(s.slots, s.acts, s.holder, t, a.value, id);
    } else {
      assert s.acts - {t} == s.acts;
    }
  }

  // ------------------------------------------------------------ the log

  lemma LogSnoc(log: seq<Event>, e: Event)
    requires NothingAfterDelete(log) && Deleted(e.id) !in log
    ensures NothingAfterDelete(log + [e])
  {
    assert (log + [e])[..|log|] == log;
  }

  lemma LogKeeps(log: seq<Event>, holder: seq<Holder>, e: Event)
    requires LogOk(log, holder) && e.id < |holder| && holder[e.id] != Gone && !e.Deleted?
    ensures LogOk(log + [e], holder)
  {
    LogSnoc(log, e);
  }

  lemma LogDeletes(log: seq<Event>, holder: seq<Holder>, id: Id)
    requires LogOk(log, holder) && id < |holder| && holder[id] != Gone
    ensures LogOk(log + [Deleted(id)], holder[id := Gone])
  {
    LogSnoc(log, Deleted(id));
  }

  // ------------------------------------------------------------ ownership, step by step

  lemma InstallOwned(s: Sys, c: nat, n: Sys)
    requires Owned(s) && n == Install(s, c) && c in s.slots
    ensures OwnedBut(n.slots, n.acts, n.holder, IdSet(Held(s.slots[c])))
  {
    TakeSlot(s.slots, s.acts, s.holder, c, Null);
    NewInSlot(s.slots[c := Null], s.acts, s.holder, IdSet(Held(s.slots[c])), c);
    assert s.slots[c := Null][c := Cb(|s.holder|)] == n.slots;
  }

  lemma AssignOwned(s: Sys, t: nat, c: nat, n: Sys)
    requires Known(s) && Owned(s) && Enabled(s, Assign(t, c)) && n == Next(s, Assign(t, c))
    ensures Owned(n)
  {
    InstallOwned(s, c, Install(s, c));
    Takes(Install(s, c), t, DisposeOf(Held(s.slots[c])), n);
  }

  lemma ClearOwned(s: Sys, t: nat, c: nat, n: Sys)
    requires Known(s) && Owned(s) && Enabled(s, Clear(t, c)) && n == Next(s, Clear(t, c))
    ensures Owned(n)
  {
    TakeSlot(s.slots, s.acts, s.holder, c, Null);
    Takes(Empty(s, c), t, DisposeOf(Held(s.slots[c])), n);
  }

  lemma DestroyOwned(s: Sys, t: nat, c: nat, n: Sys)
    requires Known(s) && Owned(s) && Enabled(s, Destroy(t, c)) && n == Next(s, Destroy(t, c))
    ensures Owned(n)
  {
    TakeSlot(s.slots, s.acts, s.holder, c, Null);
    Takes(s.(slots := s.slots - {c}, latest := s.latest - {c}), t, DisposeOf(Held(s.slots[c])), n);
  }

  lemma CallOwned(s: Sys, t: nat, c: nat, n: Sys)
    requires Known(s) && Owned(s) && Enabled(s, Call(t, c)) && n == Next(s, Call(t, c))
    ensures Owned(n)
  {
    TakeSlot(s.slots, s.acts, s.holder, c, CheckedOut);
    var s1 := s.(slots := s.slots[c := CheckedOut]);
    match Held(s.slots[c])
    case None => Takes(s1, t, Some(Returning(c, None)), n);
    case Some(cb) => Takes(s1.(log := s.log + [Begin(cb)]), t, Some(Running(c, cb)), n);
  }

  lemma CallAndClearOwned(s: Sys, t: nat, c: nat, n: Sys)
    requires Known(s) && Owned(s) && Enabled(s, CallAndClear(t, c)) && n == Next(s, CallAndClear(t, c))
    ensures Owned(n)
  {
    TakeSlot(s.slots, s.acts, s.holder, c, Null);
    match Held(s.slots[c])
    case None =>
    case Some(cb) => Takes(Empty(s, c).(log := s.log + [Begin(cb)]), t, Some(RunningLast(cb)), n);
  }

  lemma MoveOwned(s: Sys, t: nat, c: nat, from: nat, n: Sys)
    requires Known(s) && Owned(s) && Enabled(s, Move(t, c, from)) && n == Next(s, Move(t, c, from))
    ensures Owned(n)
  {
    TakeSlot(s.slots, s.acts, s.holder, from, Null);
    Takes(Empty(s, from), t, Some(Transferring(c, Held(s.slots[from]))), n);
  }

  /** An operation goes on with the same callback. */
  lemma GoesOn(s: Sys, t: nat, a: Act, n: Sys)
    requires Owned(s) && t in s.acts && Carries(a) == Carries(s.acts[t])
    requires Carries(a).Some? ==> Carries(a).value < |s.holder|
    requires n == Continue(s, t, Some(a))
    ensures Owned(n) && n.holder == s.holder
  {
    SameAct(s.slots, s.acts, s.holder, t, a);
    if Carries(a).Some? {
      assert s.holder[Carries(a).value := InAct(t)] == s.holder;
    }
  }

  lemma CheckbackOwned(s: Sys, t: nat, c: nat, back: Option<Id>, n: Sys)
    requires Known(s) && Owned(s) && t in s.acts && s.acts[t] == Returning(c, back) && c in s.slots
    requires n == AfterCheckback(s, t, c, back)
    ensures Owned(n)
  {
    DropAct(s.slots, s.acts, s.holder, {}, t);
    if s.slots[c] == CheckedOut {
      if back.Some? {
        GiveSlot(s.slots, s.acts - {t}, s.holder, {} + IdSet(back), c, back.value);
        assert {} + IdSet(back) - {back.value} == {};
      } else {
        TakeSlot(s.slots, s.acts - {t}, s.holder, c, Null);
      }
    } else if back.Some? {
      GoesOn(s, t, Disposing(back.value), n);
    }
  }

  lemma Puts(slots: map<nat, Slot>, acts: map<nat, Act>, holder: seq<Holder>, t: nat, c: nat, was: Option<Id>, id: Id)
    requires OwnedBut(slots, acts, holder, {}) && t in acts && Carries(acts[t]) == Some(id) && c in slots
    requires was == Held(slots[c])
    ensures id < |holder| && OwnedBut(slots[c := Cb(id)], acts - {t}, holder[id := InSlot(c)], IdSet(was))
  {
    TakeSlot(slots, acts, holder, c, Null);
    assert id !in IdSet(was);
    DropAct(slots[c := Null], acts, holder, IdSet(was), t);
    GiveSlot(slots[c := Null], acts - {t}, holder, IdSet(was) + {id}, c, id);
    assert slots[c := Null][c := Cb(id)] == slots[c := Cb(id)];
    assert IdSet(was) + {id} - {id} == IdSet(was);
  }

  lemma PutsNothing(slots: map<nat, Slot>, acts: map<nat, Act>, holder: seq<Holder>, t: nat, c: nat, was: Option<Id>)
    requires OwnedBut(slots, acts, holder, {}) && t in acts && Carries(acts[t]) == None && c in slots
    requires was == Held(slots[c])
    ensures OwnedBut(slots[c := Null], acts - {t}, holder, IdSet(was))
  {
    TakeSlot(slots, acts, holder, c, Null);
    DropAct(slots[c := Null], acts, holder, IdSet(was), t);
    assert IdSet(was) + {} == IdSet(was);
  }

  /** Continuing an operation is dropping it and taking up another. */
  lemma ContinueFresh(s: Sys, t: nat, a: Option<Act>)
    requires a.Some? && Carries(a.value).Some? ==> Carries(a.value).value < |s.holder|
    ensures Continue(s, t, a) == Continue(s.(acts := s.acts - {t}), t, a)
  {
    assert a.Some? ==> s.acts[t := a.value] == (s.acts - {t})[t := a.value];
    assert s.acts - {t} - {t} == s.acts - {t};
  }

  lemma TransferOwned(s: Sys, t: nat, c: nat, cb: Option<Id>, n: Sys)
    requires Known(s) && Owned(s) && t in s.acts && s.acts[t] == Transferring(c, cb) && c in s.slots
    requires n == AfterTransfer(s, t, c, cb)
    ensures Owned(n)
  {
    var was := Held(s.slots[c]);
    var s1 := s.(slots := s.slots[c := SlotOf(cb)],
                 holder := if cb.Some? then s.holder[cb.value := InSlot(c)] else s.holder,
                 latest := s.latest[c := cb]);
    if cb.Some? {
      Puts(s.slots, s.acts, s.holder, t, c, was, cb.value);
    } else {
      PutsNothing(s.slots, s.acts, s.holder, t, c, was);
    }
    ContinueFresh(s1, t, DisposeOf(was));
    Takes(s1.(acts := s.acts - {t}), t, DisposeOf(was), n);
  }

  lemma DisposeOwned(s: Sys, t: nat, n: Sys)
    requires Known(s) && Owned(s) && Enabled(s, Dispose(t)) && n == Next(s, Dispose(t))
    ensures Owned(n)
  {
    var id := s.acts[t].cb;
    DropAct(s.slots, s.acts, s.holder, {}, t);
    assert {} + IdSet(Some(id)) == {id};
    Bury(s.slots, s.acts - {t}, s.holder, id);
  }

  // ------------------------------------------------------------ the whole invariant, step by step

  lemma StepOwned(s: Sys, step: Step, n: Sys)
    requires Known(s) && Owned(s) && Enabled(s, step) && n == Next(s, step)
    ensures Owned(n)
  {
    match step
    case Create(c) => AddSlot(s.slots, s.acts, s.holder, c);
    case CreateWith(c) => NewInSlot(s.slots, s.acts, s.holder, {}, c);
    case Assign(t, c) => AssignOwned(s, t, c, n);
    case Clear(t, c) => ClearOwned(s, t, c, n);
    case Destroy(t, c) => DestroyOwned(s, t, c, n);
    case Call(t, c) => CallOwned(s, t, c, n);
    case CallAndClear(t, c) => CallAndClearOwned(s, t, c, n);
    case Move(t, c, from) => MoveOwned(s, t, c, from, n);
    case Return(t) =>
      var a := s.acts[t];
      GoesOn(s.(log := s.log + [End(a.cb)]), t, Returning(a.slot, Some(a.cb)), n);
    case Checkback(t) => CheckbackOwned(s, t, s.acts[t].slot, s.acts[t].back, n);
    case FinishLast(t) =>
      var a := s.acts[t];
      GoesOn(s.(log := s.log + [End(a.cb)]), t, Disposing(a.cb), n);
    case Transfer(t) => TransferOwned(s, t, s.acts[t].slot, s.acts[t].moved, n);
    case Dispose(t) => DisposeOwned(s, t, n);
  }

  /** Holders change only among the living, except in `Dispose`. */
  ghost predicate HoldersMove(was: seq<Holder>, now: seq<Holder>)
  {
    |was| <= |now| && (forall id :: 0 <= id < |was| ==> (was[id] == Gone <==> now[id] == Gone))
    && (forall id :: |was| <= id < |now| ==> now[id] != Gone)
  }

  lemma LogFollows(log: seq<Event>, was: seq<Holder>, now: seq<Holder>)
    requires LogOk(log, was) && HoldersMove(was, now)
    ensures LogOk(log, now)
  {
  }

  predicate LogsOne(step: Step)
  {
    step.Return? || step.FinishLast? || step.Call? || step.CallAndClear?
  }

  predicate Begins(step: Step)
  {
    step.Assign? || step.Clear? || step.Destroy? || step.Call? || step.CallAndClear? || step.Move?
  }

  lemma BeginMovesHolders(s: Sys, step: Step, n: Sys)
    requires Known(s) && Owned(s) && Enabled(s, step) && n == Next(s, step) && Begins(step)
    ensures HoldersMove(s.holder, n.holder)
  {
  }

  lemma StepMovesHolders(s: Sys, step: Step, n: Sys)
    requires Known(s) && Owned(s) && Enabled(s, step) && n == Next(s, step) && !step.Dispose?
    ensures HoldersMove(s.holder, n.holder)
  {
    if Begins(step) {
      BeginMovesHolders(s, step, n);
    }
  }

  /** Only a callback some slot or operation holds begins or ends. */
  lemma StepLogs(s: Sys, step: Step, n: Sys)
    requires Known(s) && Owned(s) && Enabled(s, step) && n == Next(s, step) && !step.Dispose?
    ensures n.log == s.log || (|n.log| > 0 && n.log == s.log + [n.log[|n.log| - 1]])
    ensures n.log != s.log ==> var e := n.log[|n.log| - 1]; !e.Deleted? && e.id < |s.holder| && s.holder[e.id] != Gone
  {
    if LogsOne(step) {
    } else {
      assert n.log == s.log;
    }
  }

  lemma StepLogOk(s: Sys, step: Step, n: Sys)
    requires Known(s) && Owned(s) && LogOk(s.log, s.holder) && Enabled(s, step) && n == Next(s, step)
    ensures LogOk(n.log, n.holder)
  {
    if step.Dispose? {
      LogDeletes(s.log, s.holder, s.acts[step.act].cb);
    } else {
      StepMovesHolders(s, step, n);
      StepLogs(s, step, n);
      if n.log != s.log {
        LogKeeps(s.log, s.holder, n.log[|n.log| - 1]);
      }
      LogFollows(n.log, s.holder, n.holder);
    }
  }

  lemma OutBefore(s: Sys, step: Step, n: Sys, c: nat)
    requires Known(s) && Enabled(s, step) && n == Next(s, step) && c in n.slots && n.slots[c] == CheckedOut
    ensures (step.Call? && step.slot == c) || (c in s.slots && s.slots[c] == CheckedOut)
    ensures step.Checkback? ==> s.acts[step.act].slot != c
  {
  }

  lemma CallRemains(s: Sys, step: Step, n: Sys, c: nat, u: nat)
    requires Known(s) && Enabled(s, step) && n == Next(s, step) && u in s.acts && CallOn(s.acts[u], c)
    requires step.Checkback? ==> s.acts[step.act].slot != c
    ensures u in n.acts && CallOn(n.acts[u], c)
  {
  }

  lemma StepOutsPending(s: Sys, step: Step, n: Sys)
    requires Known(s) && OutsPending(s.slots, s.acts) && Enabled(s, step) && n == Next(s, step)
    ensures OutsPending(n.slots, n.acts)
  {
    forall c | c in n.slots && n.slots[c] == CheckedOut ensures exists t :: t in n.acts && CallOn(n.acts[t], c) {
      OutBefore(s, step, n, c);
      if step.Call? && step.slot == c {
        assert CallOn(n.acts[step.act], c);
      } else {
        var u :| u in s.acts && CallOn(s.acts[u], c);
        CallRemains(s, step, n, c, u);
      }
    }
  }

  lemma UsedSlotAlive(s: Sys, step: Step, n: Sys, t: nat, c: nat)
    requires Known(s) && SlotsAlive(s.slots, s.acts) && Enabled(s, step) && n == Next(s, step)
    requires t in n.acts && Uses(n.acts[t], c)
    ensures c in n.slots
  {
  }

  lemma StepSlotsAlive(s: Sys, step: Step, n: Sys)
    requires Known(s) && SlotsAlive(s.slots, s.acts) && Enabled(s, step) && n == Next(s, step)
    ensures SlotsAlive(n.slots, n.acts)
  {
    forall t, c | t in n.acts && Uses(n.acts[t], c) ensures c in n.slots {
      UsedSlotAlive(s, step, n, t, c);
    }
  }
}
