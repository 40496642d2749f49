/** What the timers promise by the list of steps: cancelling, adding and stopping, whatever else happens. */
module EmitterRuns {
  import opened Common
  import opened EmitterModel
  import opened EmitterTheorems

  // ------------------------------------------------------------ the steps of the loop, in the lists

  lemma {:induction false} MinusIsFilter(a: seq<Id>, b: seq<Id>, x: Id, gone: seq<Id>)
    ensures Minus(a + b, gone) == Minus(a, gone) + Minus(b, gone)
    ensures Minus([x], gone) == if x in gone then [] else [x]
    decreases |b|
  {
    assert [x][..0] == [];
    if b == [] {
      assert a + b == a;
    } else {
      var init := b[..|b| - 1];
      MinusIsFilter(a, init, x, gone);
      assert (a + b)[..|a + b| - 1] == a + init;
    }
  }

  /** One look: a timer due is fired, at the time the clock shows and in this pass; one not due is passed by. */
  lemma LookIs(s: Sys, n: Sys)
    requires InBounds(s) && s.phase.Scanning? && n == Next(s, Look)
    ensures n.active == s.active && n.additions == s.additions && n.deletions == s.deletions && n.pass == s.pass
    ensures var pos := s.phase.pos;
            if pos < |s.active| && s.expiry[s.active[pos]] <= s.clock
            then n.fired == s.fired + [Shot(s.active[pos], s.clock, s.pass)] && n.phase.Firing?
            else n.fired == s.fired && (n.phase.Deciding? <==> pos == |s.active|)
  {
  }

  /** The start of a turn: what was added is taken in, what was cancelled is gone, and the clock is read. */
  lemma UpdateIs(s: Sys, n: Sys, x: Id)
    requires InBounds(s) && s.phase.Updating? && n == Next(s, Update)
    ensures x in n.active <==> (x in s.active || x in s.additions) && x !in s.deletions
    ensures n.additions == n.deletions == [] && n.fired == s.fired && n.passStart == s.clock && n.clock == s.clock
  {
    MinusIn(s.active + s.additions, s.deletions, x);
  }

  /** Adding a timer ends with an interrupt, and so does stopping; the loop goes on exactly while it is running,
      sleeps until the earliest expiry it saw, and wakes with the interrupt used up. */
  lemma OtherStepsAre(s: Sys, at: int)
    requires InBounds(s)
    ensures var n := Next(s, Insert(at)); n.additions == s.additions + [|s.expiry|] && n.adding == s.adding + 1
    ensures s.adding > 0 ==> var n := Next(s, Interrupt); n.adding == s.adding - 1 && n.interrupt
    ensures var n := Next(s, Stop); !n.running && n.interrupt && n.phase == s.phase
    ensures s.phase.Checking? ==> Next(s, Check).phase == (if s.running then Updating else Stopped)
    ensures s.phase.Deciding? ==> Next(s, Decide).phase == Sleeping(s.phase.next) && Next(s, Decide).interrupt == s.interrupt
    ensures s.phase.Sleeping? ==> Next(s, Wake).phase == Checking && !Next(s, Wake).interrupt
  {
  }

  /** The number of turns the loop has begun. */
  function Turns(steps: seq<Step>): nat
  {
    if steps == [] then 0 else (if steps[0].Update? then 1 else 0) + Turns(steps[1..])
  }

  lemma {:induction false} PassCountsTurns(s: Sys, steps: seq<Step>)
    requires Run(s, steps)
    ensures Final(s, steps).pass == s.pass + Turns(steps)
    decreases |steps|
  {
    if steps != [] {
      PassCountsTurns(Next(s, steps[0]), steps[1..]);
    }
  }

  // ------------------------------------------------------------ cancelling

  /** Neither listed nor fired after pass `last`, but for what the present turn may still do. */
  ghost predicate Ending(s: Sys, id: Id, last: nat)
  {
    && id < |s.expiry| && id !in s.additions && (id in s.active ==> id in s.deletions && s.pass <= last)
    && (forall k :: 0 <= k < |s.fired| && s.fired[k].id == id ==> s.fired[k].pass <= last)
  }

  lemma CancelEnds(s: Sys, id: Id)
    requires Inv(s) && InBounds(s) && (id in s.active || id in s.additions)
    ensures Ending(Next(s, Cancel(id)), id, s.pass)
  {
    MinusAll(s.additions, [id]);
    forall k | 0 <= k < |s.fired| && s.fired[k].id == id ensures s.fired[k].pass <= s.pass {
      assert ShotOk(s, s.fired[k]);
    }
  }

  lemma EndingStep(s: Sys, step: Step, id: Id, last: nat)
    requires Inv(s) && InBounds(s) && Enabled(s, step) && Ending(s, id, last)
    ensures Ending(Next(s, step), id, last)
  {
    match step
    case Cancel(x) => MinusAll(s.additions, [x]);
    case Update => MinusAll(s.active + s.additions, s.deletions);
    case FireEnd => RemoveAtIn(s.active, s.phase.pos);
    case _ =>
  }

  lemma {:induction false} EndingRun(s: Sys, steps: seq<Step>, id: Id, last: nat)
    requires Inv(s) && Run(s, steps) && Ending(s, id, last)
    ensures Ending(Final(s, steps), id, last)
    decreases |steps|
  {
    if steps != [] {
      EndingStep(s, steps[0], id, last);
      StepKeepsInv(s, steps[0], Next(s, steps[0]));
      EndingRun(Next(s, steps[0]), steps[1..], id, last);
    }
  }

  /** After `cancel_timer` a timer fires in no later turn, whatever comes: every firing was in a turn begun by then. */
  lemma CancelledNeverFiresLater(s: Sys, id: Id, steps: seq<Step>, k: nat)
    requires Reachable(s) && (id in s.active || id in s.additions)
    requires Run(s, [Cancel(id)] + steps) && k < |Final(s, [Cancel(id)] + steps).fired|
    requires Final(s, [Cancel(id)] + steps).fired[k].id == id
    ensures Final(s, [Cancel(id)] + steps).fired[k].pass <= s.pass
  {
    var all := [Cancel(id)] + steps;
    assert all[0] == Cancel(id) && all[1..] == steps;
    Reached(s);
    CancelEnds(s, id);
    StepKeepsInv(s, Cancel(id), Next(s, Cancel(id)));
    EndingRun(Next(s, Cancel(id)), steps, id, s.pass);
  }

  /** Gone before it was ever looked at. */
  ghost predicate NeverFires(s: Sys, id: Id)
  {
    && id < |s.expiry| && id !in s.additions && id !in s.active
    && (forall k :: 0 <= k < |s.fired| ==> s.fired[k].id != id)
  }

  lemma NeverFiresStep(s: Sys, step: Step, id: Id)
    requires Inv(s) && InBounds(s) && Enabled(s, step) && NeverFires(s, id)
    ensures NeverFires(Next(s, step), id)
  {
    match step
    case Cancel(x) => MinusAll(s.additions, [x]);
    case Update => MinusAll(s.active + s.additions, s.deletions);
    case FireEnd => RemoveAtIn(s.active, s.phase.pos);
    case _ =>
  }

  lemma {:induction false} NeverFiresRun(s: Sys, steps: seq<Step>, id: Id)
    requires Inv(s) && Run(s, steps) && NeverFires(s, id)
    ensures NeverFires(Final(s, steps), id)
    decreases |steps|
  {
    if steps != [] {
      NeverFiresStep(s, steps[0], id);
      StepKeepsInv(s, steps[0], Next(s, steps[0]));
      NeverFiresRun(Next(s, steps[0]), steps[1..], id);
    }
  }

  /** A timer cancelled before the loop took it in never fires. */
  lemma CancelledBeforeAddedNeverFires(s: Sys, id: Id, steps: seq<Step>)
    requires Reachable(s) && id in s.additions && Run(s, [Cancel(id)] + steps)
    ensures !IsFired(Final(s, [Cancel(id)] + steps).fired, id)
  {
    var all := [Cancel(id)] + steps;
    assert all[0] == Cancel(id) && all[1..] == steps;
    Reached(s);
    MinusAll(s.additions, [id]);
    forall k | 0 <= k < |s.fired| ensures s.fired[k].id != id {
      assert ShotOk(s, s.fired[k]);
    }
    StepKeepsInv(s, Cancel(id), Next(s, Cancel(id)));
    NeverFiresRun(Next(s, Cancel(id)), steps, id);
  }

  // ------------------------------------------------------------ not cancelling

  ghost predicate Alive(s: Sys, id: Id)
  {
    id < |s.expiry| && id !in s.deletions && (id in s.additions || id in s.active || IsFired(s.fired, id))
  }

  lemma AliveStep(s: Sys, step: Step, id: Id)
    requires Inv(s) && InBounds(s) && Enabled(s, step) && Alive(s, id) && step != Cancel(id)
    ensures Alive(Next(s, step), id)
  {
    var n := Next(s, step);
    if IsFired(s.fired, id) {
      var k :| 0 <= k < |s.fired| && s.fired[k].id == id;
      assert s.fired <= n.fired && n.fired[k].id == id;
    }
    match step
    case Cancel(x) => MinusAll(s.additions, [x]);
    case Update => MinusAll(s.active + s.additions, s.deletions);
    case FireEnd => RemoveAtIn(s.active, s.phase.pos);
    case _ =>
  }

  lemma {:induction false} AliveRun(s: Sys, steps: seq<Step>, id: Id)
    requires Inv(s) && Run(s, steps) && Alive(s, id) && Cancel(id) !in steps
    ensures Alive(Final(s, steps), id) && Inv(Final(s, steps))
    decreases |steps|
  {
    if steps != [] {
      AliveStep(s, steps[0], id);
      StepKeepsInv(s, steps[0], Next(s, steps[0]));
      AliveRun(Next(s, steps[0]), steps[1..], id);
    }
  }

  /** A timer that is added and never cancelled is listed until it has fired, and by the end of a turn that found
      it due it has. */
  lemma AddedFiresWhenDue(s: Sys, at: int, steps: seq<Step>)
    requires Reachable(s) && Run(s, [Insert(at)] + steps) && Cancel(|s.expiry|) !in steps
    ensures var n, id := Final(s, [Insert(at)] + steps), |s.expiry|;
            && id < |n.expiry| && n.expiry[id] == at
            && (id in n.additions || id in n.active || IsFired(n.fired, id))
            && (n.phase.Deciding? && at <= n.passStart && id !in n.additions ==> IsFired(n.fired, id))
  {
    var all, id := [Insert(at)] + steps, |s.expiry|;
    assert all[0] == Insert(at) && all[1..] == steps;
    Reached(s);
    InvInBounds(s);
    var m := Next(s, Insert(at));
    StepKeepsInv(s, Insert(at), m);
    assert m.additions[|s.additions|] == id;
    AliveRun(m, steps, id);
    ExpiryKept(m, steps, id);
    var n := Final(m, steps);
    if n.phase.Deciding? && at <= n.passStart && id !in n.additions {
      assert Seen(n.expiry, n.active, n.phase.next, n.passStart);
    }
  }

  lemma {:induction false} ExpiryKept(s: Sys, steps: seq<Step>, id: Id)
    requires Run(s, steps) && id < |s.expiry|
    ensures id < |Final(s, steps).expiry| && Final(s, steps).expiry[id] == s.expiry[id]
    decreases |steps|
  {
    if steps != [] {
      ExpiryKept(Next(s, steps[0]), steps[1..], id);
    }
  }

  // ------------------------------------------------------------ stopping

  ghost predicate Stopping(s: Sys, turns: nat)
  {
    && !s.running && s.pass <= turns && (s.phase.Updating? ==> s.pass < turns)
  }

  lemma {:induction false} StoppingRun(s: Sys, steps: seq<Step>, turns: nat)
    requires Run(s, steps) && Stopping(s, turns)
    ensures Stopping(Final(s, steps), turns)
    decreases |steps|
  {
    if steps != [] {
      StoppingRun(Next(s, steps[0]), steps[1..], turns);
    }
  }

  /** After `stop` at most the turn already decided on is begun, and the next check ends the loop. */
  lemma StopStops(s: Sys, steps: seq<Step>)
    requires Run(s, [Stop] + steps)
    ensures var n := Final(s, [Stop] + steps);
            && n.pass <= s.pass + (if s.phase.Updating? then 1 else 0)
            && (InBounds(n) && n.phase.Checking? ==> Next(n, Check).phase == Stopped)
  {
    var all := [Stop] + steps;
    assert all[0] == Stop && all[1..] == steps;
    StoppingRun(Next(s, Stop), steps, s.pass + (if s.phase.Updating? then 1 else 0));
  }
}
