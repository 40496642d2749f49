/** The steps of `CallbackModel` in slots, operations and log, and what becomes of a callback by the list of steps. */
module CallbackRuns {
  import opened Common
  import opened CallbackModel
  import opened CallbackSteps
  import opened CallbackTheorems

  // ------------------------------------------------------------ what each step does

  /** An operation that took this out of a slot has still to delete it, if it is a callback. */
  function Afterwards(acts: map<nat, Act>, t: nat, taken: Slot): map<nat, Act>
  {
    if taken.Cb? then acts[t := Disposing(taken.id)] else acts
  }

  lemma OperationsAre(s: Sys, t: nat, c: nat, from: nat)
    requires Known(s) && t !in s.acts && c in s.slots && from in s.slots
    ensures var n, id := Next(s, Assign(t, c)), |s.holder|;
            n.slots == s.slots[c := Cb(id)] && n.acts == Afterwards(s.acts, t, s.slots[c]) && n.log == s.log
            && |n.holder| == id + 1
    ensures var n := Next(s, Clear(t, c));
            n.slots == s.slots[c := Null] && n.acts == Afterwards(s.acts, t, s.slots[c]) && n.log == s.log
    ensures var n := Next(s, Call(t, c));
            && n.slots == s.slots[c := CheckedOut]
            && (if s.slots[c].Cb? then n.acts == s.acts[t := Running(c, s.slots[c].id)] && n.log == s.log + [Begin(s.slots[c].id)]
                else n.acts == s.acts[t := Returning(c, None)] && n.log == s.log)
    ensures var n := Next(s, CallAndClear(t, c));
            && n.slots == s.slots[c := Null]
            && (if s.slots[c].Cb? then n.acts == s.acts[t := RunningLast(s.slots[c].id)] && n.log == s.log + [Begin(s.slots[c].id)]
                else n.acts == s.acts && n.log == s.log)
    ensures var n := Next(s, Move(t, c, from));
            && n.slots == s.slots[from := Null] && n.log == s.log
            && n.acts == s.acts[t := Transferring(c, if s.slots[from].Cb? then Some(s.slots[from].id) else None)]
  {
    assert s.acts - {t} == s.acts;
  }

  lemma ObjectsAre(s: Sys, t: nat, c: nat)
    requires Known(s)
    ensures c !in s.slots ==>
              var n, m := Next(s, Create(c)), Next(s, CreateWith(c));
              && n.slots == s.slots[c := Null] && n.acts == s.acts && n.log == s.log
              && m.slots == s.slots[c := Cb(|s.holder|)] && m.acts == s.acts && m.log == s.log && |m.holder| == |s.holder| + 1
    ensures Enabled(s, Destroy(t, c)) ==>
              var n := Next(s, Destroy(t, c));
              n.slots == s.slots - {c} && n.acts == Afterwards(s.acts, t, s.slots[c]) && n.log == s.log
  {
    assert t !in s.acts ==> s.acts - {t} == s.acts;
  }

  lemma CallsGoOn(s: Sys, t: nat)
    requires Known(s) && t in s.acts
    ensures s.acts[t].Running? ==>
              var n, a := Next(s, Return(t)), s.acts[t];
              n.slots == s.slots && n.acts == s.acts[t := Returning(a.slot, Some(a.cb))] && n.log == s.log + [End(a.cb)]
    ensures s.acts[t].RunningLast? ==>
              var n, id := Next(s, FinishLast(t)), s.acts[t].cb;
              n.slots == s.slots && n.acts == s.acts[t := Disposing(id)] && n.log == s.log + [End(id)]
    ensures s.acts[t].Disposing? ==>
              var n := Next(s, Dispose(t));
              n.slots == s.slots && n.acts == s.acts - {t} && n.log == s.log + [Deleted(s.acts[t].cb)]
  {
  }

  /** A call that ends puts its callback back where it finds the mark, and has otherwise to delete it. */
  lemma CheckbackIs(s: Sys, t: nat)
    requires Known(s) && Enabled(s, Checkback(t))
    ensures var n, a := Next(s, Checkback(t)), s.acts[t];
            n.log == s.log
            && (if s.slots[a.slot] == CheckedOut
                then n.slots == s.slots[a.slot := if a.back.Some? then Cb(a.back.value) else Null] && n.acts == s.acts - {t}
                else n.slots == s.slots
                     && n.acts == if a.back.Some? then s.acts[t := Disposing(a.back.value)] else s.acts - {t})
  {
  }

  lemma TransferIs(s: Sys, t: nat)
    requires Known(s) && Enabled(s, Transfer(t))
    ensures var n, a := Next(s, Transfer(t)), s.acts[t];
            && n.slots == s.slots[a.slot := if a.moved.Some? then Cb(a.moved.value) else Null] && n.log == s.log
            && n.acts == if s.slots[a.slot].Cb? then s.acts[t := Disposing(s.slots[a.slot].id)] else s.acts - {t}
  {
  }

  // ------------------------------------------------------------ called and cleared

  /** What the log says of one callback. */
  function About(log: seq<Event>, id: Id): seq<Event>
  {
    if log == [] then []
    else
      var init, last := About(log[..|log| - 1], id), log[|log| - 1];
      if last.id == id then init + [last] else init
  }

  lemma AboutSnoc(log: seq<Event>, e: Event, id: Id)
    ensures About(log + [e], id) == if e.id == id then About(log, id) + [e] else About(log, id)
  {
    assert (log + [e])[..|log|] == log;
  }

  /** A callback taken out by `call_and_clear`, on its one way: begun, ended, deleted. */
  ghost predicate OnItsWay(s: Sys, t: nat, id: Id, before: seq<Event>)
  {
    && id < |s.holder|
    && match s.holder[id]
       case InSlot(_) => false
       case InAct(u) =>
         && u == t && t in s.acts
         && ((s.acts[t] == RunningLast(id) && About(s.log, id) == before + [Begin(id)])
             || (s.acts[t] == Disposing(id) && About(s.log, id) == before + [Begin(id), End(id)]))
       case Gone => About(s.log, id) == before + [Begin(id), End(id), Deleted(id)]
  }

  lemma StartsItsWay(s: Sys, t: nat, c: nat, id: Id)
    requires Known(s) && Owned(s) && t !in s.acts && c in s.slots && s.slots[c] == Cb(id)
    ensures OnItsWay(Next(s, CallAndClear(t, c)), t, id, About(s.log, id))
  {
    AboutSnoc(s.log, Begin(id), id);
  }

  /** It is in the hands of operation `t`, or gone. */
  ghost predicate Apart(s: Sys, t: nat, id: Id)
  {
    && id < |s.holder| && (s.holder[id] == InAct(t) || s.holder[id] == Gone)
    && (s.holder[id] == InAct(t) ==> t in s.acts && Carries(s.acts[t]) == Some(id))
  }

  /** The step is not the next one of operation `t`. */
  predicate NotOf(step: Step, t: nat)
  {
    step.Return? || step.Checkback? || step.FinishLast? || step.Transfer? || step.Dispose? ==> step.act != t
  }

  /** Nothing is said of it, and it stays where it is. */
  ghost predicate Silent(s: Sys, n: Sys, t: nat, id: Id)
    requires id < |s.holder| && (s.holder[id] == InAct(t) ==> t in s.acts)
  {
    && About(n.log, id) == About(s.log, id)
    && id < |n.holder| && n.holder[id] == s.holder[id]
    && (s.holder[id] == InAct(t) ==> t in n.acts && n.acts[t] == s.acts[t])
  }

  lemma SilentIf(s: Sys, n: Sys, t: nat, id: Id, e: Event)
    requires n.log == s.log || (n.log == s.log + [e] && e.id != id)
    requires id < |n.holder| && id < |s.holder| && n.holder[id] == s.holder[id]
    requires s.holder[id] == InAct(t) ==> t in n.acts && t in s.acts && n.acts[t] == s.acts[t]
    ensures Silent(s, n, t, id)
  {
    AboutSnoc(s.log, e, id);
  }

  lemma BeginSilent(s: Sys, step: Step, n: Sys, t: nat, id: Id)
    requires Known(s) && Owned(s) && Enabled(s, step) && n == Next(s, step) && Apart(s, t, id)
    requires step.Create? || step.CreateWith? || step.Assign? || step.Clear? || step.Destroy? || step.Move?
    ensures Silent(s, n, t, id)
  {
    SilentIf(s, n, t, id, Begin(id));
  }

  lemma CallSilent(s: Sys, step: Step, n: Sys, t: nat, id: Id)
    requires Known(s) && Owned(s) && Enabled(s, step) && n == Next(s, step) && Apart(s, t, id)
    requires step.Call? || step.CallAndClear?
    ensures Silent(s, n, t, id)
  {
    SilentIf(s, n, t, id, if s.slots[step.slot].Cb? then Begin(s.slots[step.slot].id) else Begin(id));
  }

  lemma EndSilent(s: Sys, step: Step, n: Sys, t: nat, id: Id)
    requires Known(s) && Owned(s) && Enabled(s, step) && n == Next(s, step) && Apart(s, t, id) && NotOf(step, t)
    requires step.Return? || step.FinishLast? || step.Dispose?
    ensures Silent(s, n, t, id)
  {
    SilentIf(s, n, t, id, if step.Dispose? then Deleted(s.acts[step.act].cb) else End(s.acts[step.act].cb));
  }

  lemma BackSilent(s: Sys, step: Step, n: Sys, t: nat, id: Id)
    requires Known(s) && Owned(s) && Enabled(s, step) && n == Next(s, step) && Apart(s, t, id) && NotOf(step, t)
    requires step.Checkback? || step.Transfer?
    ensures Silent(s, n, t, id)
  {
    SilentIf(s, n, t, id, Begin(id));
  }

  /** Steps of other operations say nothing of it. */
  lemma OthersSilent(s: Sys, step: Step, n: Sys, t: nat, id: Id)
    requires Known(s) && Owned(s) && Enabled(s, step) && n == Next(s, step) && Apart(s, t, id) && NotOf(step, t)
    ensures Silent(s, n, t, id)
  {
    match step
    case Call(_, _) => CallSilent(s, step, n, t, id);
    case CallAndClear(_, _) => CallSilent(s, step, n, t, id);
    case Return(_) => EndSilent(s, step, n, t, id);
    case FinishLast(_) => EndSilent(s, step, n, t, id);
    case Dispose(_) => EndSilent(s, step, n, t, id);
    case Checkback(_) => BackSilent(s, step, n, t, id);
    case Transfer(_) => BackSilent(s, step, n, t, id);
    case _ => BeginSilent(s, step, n, t, id);
  }

  lemma OwnStep(s: Sys, step: Step, n: Sys, t: nat, id: Id, before: seq<Event>)
    requires Known(s) && Owned(s) && Enabled(s, step) && n == Next(s, step) && OnItsWay(s, t, id, before)
    requires s.holder[id] == InAct(t) && (step == FinishLast(t) || step == Dispose(t))
    ensures OnItsWay(n, t, id, before)
  {
    CallsGoOn(s, t);
    AboutSnoc(s.log, End(id), id);
    AboutSnoc(s.log, Deleted(id), id);
  }

  lemma WayStep(s: Sys, step: Step, n: Sys, t: nat, id: Id, before: seq<Event>)
    requires Known(s) && Owned(s) && Enabled(s, step) && n == Next(s, step) && OnItsWay(s, t, id, before)
    ensures OnItsWay(n, t, id, before)
  {
    if s.holder[id] == InAct(t) && (step == FinishLast(t) || step == Dispose(t)) {
      OwnStep(s, step, n, t, id, before);
    } else if s.holder[id] == InAct(t) || NotOf(step, t) {
      OthersSilent(s, step, n, t, id);
    } else {
      GoneSilent(s, step, n, t, id);
    }
  }

  /** A later operation of the same number is another one. */
  lemma GoneSilent(s: Sys, step: Step, n: Sys, t: nat, id: Id)
    requires Known(s) && Owned(s) && Enabled(s, step) && n == Next(s, step) && id < |s.holder| && s.holder[id] == Gone
    ensures Silent(s, n, t, id)
  {
    var u := t + 1;
    if NotOf(step, t) {
      OthersSilent(s, step, n, t, id);
    } else {
      OthersSilent(s, step, n, u, id);
    }
  }

  lemma {:induction false} WayRun(s: Sys, steps: seq<Step>, t: nat, id: Id, before: seq<Event>)
    requires Inv(s) && Run(s, steps) && OnItsWay(s, t, id, before)
    ensures OnItsWay(Final(s, steps), t, id, before)
    decreases |steps|
  {
    if steps != [] {
      WayStep(s, steps[0], Next(s, steps[0]), t, id, before);
      StepKeepsInv(s, steps[0]);
      WayRun(Next(s, steps[0]), steps[1..], t, id, before);
    }
  }

  /** A callback taken out by `call_and_clear` is begun at once, and whenever it is deleted, in any run with any other
      operations in between, it has by then been ended, once, and nothing else has happened to it. */
  lemma CalledAndClearedRunsOnce(s: Sys, t: nat, c: nat, id: Id, steps: seq<Step>)
    requires Reachable(s) && t !in s.acts && c in s.slots && s.slots[c] == Cb(id)
    requires Run(s, [CallAndClear(t, c)] + steps)
    ensures var n := Final(s, [CallAndClear(t, c)] + steps);
            && About(s.log, id) + [Begin(id)] <= About(n.log, id)
            && (Deleted(id) in n.log ==> About(n.log, id) == About(s.log, id) + [Begin(id), End(id), Deleted(id)])
  {
    var all := [CallAndClear(t, c)] + steps;
    assert all[0] == CallAndClear(t, c) && all[1..] == steps;
    Reached(s);
    StartsItsWay(s, t, c, id);
    StepKeepsInv(s, CallAndClear(t, c));
    var m := Next(s, CallAndClear(t, c));
    WayRun(m, steps, t, id, About(s.log, id));
    RunKeepsInv(m, steps);
  }
}
