/** What the timers promise, in every run of the loop with any threads adding and cancelling. */
module EmitterTheorems {
  import opened Common
  import opened EmitterModel

  // ------------------------------------------------------------ lists

  lemma {:induction false} MinusIn(s: seq<Id>, gone: seq<Id>, x: Id)
    ensures x in Minus(s, gone) <==> x in s && x !in gone
  {
    if s != [] {
      MinusIn(s[..|s| - 1], gone, x);
      assert s == s[..|s| - 1] + [s[|s| - 1]];
    }
  }

  lemma {:induction false} MinusNoDup(s: seq<Id>, gone: seq<Id>)
    requires NoDup(s)
    ensures NoDup(Minus(s, gone))
  {
    if s != [] {
      var init, last := s[..|s| - 1], s[|s| - 1];
      MinusNoDup(init, gone);
      MinusIn(init, gone, last);
      assert last !in init;
    }
  }

  lemma MinusAll(s: seq<Id>, gone: seq<Id>)
    ensures forall x :: x in Minus(s, gone) <==> x in s && x !in gone
  {
    forall x ensures x in Minus(s, gone) <==> x in s && x !in gone {
      MinusIn(s, gone, x);
    }
  }

  lemma RemoveAtIn(s: seq<Id>, i: nat)
    requires NoDup(s) && i < |s|
    ensures NoDup(RemoveAt(s, i)) && s[i] !in RemoveAt(s, i) && RemoveAt(s, i)[..i] == s[..i]
    ensures forall x :: x in RemoveAt(s, i) <==> x in s && x != s[i]
  {
    var r := RemoveAt(s, i);
    forall x | x in s && x != s[i] ensures x in r {
      var k :| 0 <= k < |s| && s[k] == x;
      assert if k < i then r[k] == x else r[k - 1] == x;
    }
  }

  // ------------------------------------------------------------ the steps of other threads

  lemma TickKeeps(s: Sys, to: int, n: Sys)
    requires Inv(s) && s.clock <= to && n == s.(clock := to)
    ensures Inv(n)
  {
  }

  lemma SeenStill(expiry: seq<int>, e: int, ids: seq<Id>, next: Option<int>, start: int)
    requires Seen(expiry, ids, next, start)
    ensures Seen(expiry + [e], ids, next, start)
  {
    var more := expiry + [e];
    forall i | 0 <= i < |ids| ensures ids[i] < |more| && more[ids[i]] == expiry[ids[i]] && start < more[ids[i]] {
    }
    if next.Some? {
      var i :| 0 <= i < |ids| && expiry[ids[i]] == next.value;
      assert more[ids[i]] == next.value;
    }
  }

  lemma InsertKeepsPhase(s: Sys, e: int, n: Sys)
    requires PhaseOk(s) && InBounds(s) && n == Next(s, Insert(e))
    ensures PhaseOk(n)
  {
    match s.phase
    case Scanning(pos, next) => SeenStill(s.expiry, e, s.active[..pos], next, s.passStart);
    case Firing(pos, next) => SeenStill(s.expiry, e, s.active[..pos], next, s.passStart);
    case Deciding(next) => SeenStill(s.expiry, e, s.active, next, s.passStart);
    case Sleeping(until) => SeenStill(s.expiry, e, s.active, until, s.passStart);
    case _ =>
  }

  lemma InsertKeeps(s: Sys, e: int, n: Sys)
    requires Inv(s) && InBounds(s) && n == Next(s, Insert(e))
    ensures Inv(n)
  {
    InsertKeepsPhase(s, e, n);
    var id := |s.expiry|;
    assert id !in s.additions && id !in s.active;
    forall x | 0 <= x < |n.expiry| ensures x in n.additions || x in n.active || IsFired(n.fired, x) || x in n.cancelled {
      assert x == id ==> n.additions[|s.additions|] == id;
    }
  }

  lemma CancelActiveKeeps(s: Sys, id: Id, n: Sys)
    requires Inv(s) && id in s.active && n == AfterCancel(s, id)
    ensures Inv(n)
  {
    assert n.deletions[|s.deletions|] == id;
  }

  lemma CancelAddedKeeps(s: Sys, id: Id, n: Sys)
    requires Inv(s) && id !in s.active && id in s.additions && n == AfterCancel(s, id)
    ensures Inv(n)
  {
    MinusNoDup(s.additions, [id]);
    MinusAll(s.additions, [id]);
  }

  // ------------------------------------------------------------ the steps of the loop

  lemma SpliceLists(additions: seq<Id>, active: seq<Id>, count: nat)
    requires Lists(additions, active, count)
    ensures NoDup(active + additions)
  {
    var all := active + additions;
    forall i, j | 0 <= i < j < |all| ensures all[i] != all[j] {
      assert i < |active| ==> all[i] in active;
      assert j >= |active| ==> all[j] in additions;
    }
  }

  lemma UpdateKeeps(s: Sys, n: Sys)
    requires Inv(s) && s.phase.Updating? && n == AfterUpdate(s)
    ensures Inv(n)
  {
    SpliceLists(s.additions, s.active, |s.expiry|);
    MinusNoDup(s.active + s.additions, s.deletions);
    MinusAll(s.active + s.additions, s.deletions);
  }

  lemma FireKeeps(s: Sys, n: Sys)
    requires Inv(s) && InBounds(s) && s.phase.Scanning? && s.phase.pos < |s.active|
    requires s.expiry[s.active[s.phase.pos]] <= s.clock && n == AfterLook(s)
    ensures Inv(n)
  {
    var id := s.active[s.phase.pos];
    assert id in s.active;
    assert !IsFired(s.fired, id);
    assert n.fired[|s.fired|].id == id;
    forall x | IsFired(s.fired, x) ensures IsFired(n.fired, x) {
      var k :| 0 <= k < |s.fired| && s.fired[k].id == x;
      assert n.fired[k].id == x;
    }
  }

  lemma SeenMore(expiry: seq<int>, ids: seq<Id>, next: Option<int>, start: int, x: Id)
    requires Seen(expiry, ids, next, start) && x < |expiry| && start < expiry[x]
    ensures Seen(expiry, ids + [x], Earliest(next, expiry[x]), start)
  {
    var now := ids + [x];
    assert now[|ids|] == x;
    if next.Some? {
      var i :| 0 <= i < |ids| && expiry[ids[i]] == next.value;
      assert now[i] == ids[i];
    }
  }

  lemma PassKeeps(s: Sys, n: Sys)
    requires Inv(s) && InBounds(s) && s.phase.Scanning? && n == AfterLook(s)
    requires s.phase.pos < |s.active| ==> s.expiry[s.active[s.phase.pos]] > s.clock
    ensures Inv(n)
  {
    var pos := s.phase.pos;
    if pos < |s.active| {
      SeenMore(s.expiry, s.active[..pos], s.phase.next, s.passStart, s.active[pos]);
      assert s.active[..pos] + [s.active[pos]] == s.active[..pos + 1];
    } else {
      assert s.active[..pos] == s.active;
    }
  }

  lemma FireEndKeeps(s: Sys, n: Sys)
    requires Inv(s) && InBounds(s) && s.phase.Firing? && n == Next(s, FireEnd)
    ensures Inv(n)
  {
    RemoveAtIn(s.active, s.phase.pos);
  }

  lemma StepKeepsInv(s: Sys, step: Step, n: Sys)
    requires Inv(s) && InBounds(s) && Enabled(s, step) && n == Next(s, step)
    ensures Inv(n)
  {
    match step
    case Tick(to) => TickKeeps(s, to, n);
    case Insert(e) => InsertKeeps(s, e, n);
    case Interrupt =>
    case Cancel(id) =>
      if id in s.active {
        CancelActiveKeeps(s, id, n);
      } else if id in s.additions {
        CancelAddedKeeps(s, id, n);
      }
    case Stop =>
    case Check =>
    case Update => UpdateKeeps(s, n);
    case Look =>
      if s.phase.pos < |s.active| && s.expiry[s.active[s.phase.pos]] <= s.clock {
        FireKeeps(s, n);
      } else {
        PassKeeps(s, n);
      }
    case FireEnd => FireEndKeeps(s, n);
    case Decide =>
    case Wake =>
  }

  // ------------------------------------------------------------ every run

  ghost predicate Run(s: Sys, steps: seq<Step>)
    decreases |steps|
  {
    steps == [] || (InBounds(s) && Enabled(s, steps[0]) && Run(Next(s, steps[0]), steps[1..]))
  }

  ghost function Final(s: Sys, steps: seq<Step>): Sys
    requires Run(s, steps)
    decreases |steps|
  {
    if steps == [] then s else Final(Next(s, steps[0]), steps[1..])
  }

  lemma {:induction false} RunKeepsInv(s: Sys, steps: seq<Step>)
    requires Inv(s) && Run(s, steps)
    ensures Inv(Final(s, steps))
    decreases |steps|
  {
    if steps != [] {
      StepKeepsInv(s, steps[0], Next(s, steps[0]));
      RunKeepsInv(Next(s, steps[0]), steps[1..]);
    }
  }

  ghost predicate Reachable(s: Sys)
  {
    exists clock, steps :: Run(Initial(clock), steps) && s == Final(Initial(clock), steps)
  }

  lemma Reached(s: Sys)
    requires Reachable(s)
    ensures Inv(s)
  {
    var clock, steps :| Run(Initial(clock), steps) && s == Final(Initial(clock), steps);
    InitialInv(clock);
    RunKeepsInv(Initial(clock), steps);
  }

  /** No timer fires before its expiry, and none fires twice. */
  lemma FiresOnceAndNotEarly(s: Sys, j: nat, k: nat)
    requires Reachable(s) && j < |s.fired| && k < |s.fired|
    ensures s.fired[j].id < |s.expiry| && s.expiry[s.fired[j].id] <= s.fired[j].time
    ensures j != k ==> s.fired[j].id != s.fired[k].id
  {
    Reached(s);
    assert ShotOk(s, s.fired[j]);
  }

  /** A timer nobody cancelled has fired or is still in one of the two lists. */
  lemma NoneLost(s: Sys, id: Id)
    requires Reachable(s) && id < |s.expiry| && id !in s.cancelled
    ensures id in s.additions || id in s.active || IsFired(s.fired, id)
  {
    Reached(s);
  }

  /** A cancelled timer never fires in a pass after the one in which it was cancelled. */
  lemma CancelledStaysQuiet(s: Sys, k: nat)
    requires Reachable(s) && k < |s.fired| && s.fired[k].id in s.cancelled
    ensures s.fired[k].pass <= s.cancelled[s.fired[k].id]
  {
    Reached(s);
    assert ShotOk(s, s.fired[k]);
  }

  /** When a pass is over every timer due at its start has fired, was cancelled, or was added during it. */
  lemma PassFiresWhatIsDue(s: Sys, id: Id)
    requires Reachable(s) && s.phase.Deciding? && id < |s.expiry| && s.expiry[id] <= s.passStart
    ensures IsFired(s.fired, id) || id in s.cancelled || id in s.additions
  {
    Reached(s);
    assert Seen(s.expiry, s.active, s.phase.next, s.passStart);
  }

  /** Asleep, with no interrupt pending or about to be, the loop has nothing to add, and wakes no later than
      the expiry of any timer, and not before the first. */
  lemma NeverOversleeps(s: Sys)
    requires Reachable(s) && s.phase.Sleeping? && !s.interrupt && s.adding == 0
    ensures s.additions == []
    ensures s.active == [] <==> s.phase.until == None
    ensures forall i :: 0 <= i < |s.active| ==>
              s.active[i] < |s.expiry| && s.phase.until.Some? && s.phase.until.value <= s.expiry[s.active[i]]
    ensures s.phase.until.Some? ==> exists i :: 0 <= i < |s.active| && s.active[i] < |s.expiry|
                                               && s.phase.until.value == s.expiry[s.active[i]]
  {
    Reached(s);
    assert s.active != [] ==> s.active[0] in s.active;
  }

  // ------------------------------------------------------------ the loop is never stuck

  /** The one step of the loop's own thread. */
  function LoopStep(s: Sys): Step
    requires !s.phase.Stopped?
  {
    match s.phase
    case Checking => Check
    case Updating => Update
    case Scanning(_, _) => Look
    case Firing(_, _) => FireEnd
    case Deciding(_) => Decide
    case Sleeping(_) => Wake
  }

  /** Whatever other threads did, the lists the loop looks into are as long as it takes them to be, and it can
      go on unless it was stopped. */
  lemma LoopNeverStuck(s: Sys)
    requires Reachable(s)
    ensures InBounds(s)
    ensures !s.phase.Stopped? ==> Enabled(s, LoopStep(s)) && Inv(Next(s, LoopStep(s)))
  {
    Reached(s);
    InvInBounds(s);
    if !s.phase.Stopped? {
      StepKeepsInv(s, LoopStep(s), Next(s, LoopStep(s)));
    }
  }

  /** The state after `n` steps of the loop with nothing else happening. */
  ghost function Alone(s: Sys, n: nat): Sys
    requires Inv(s)
    decreases n
  {
    if n == 0 || s.phase.Stopped? then s
    else
      InvInBounds(s);
      StepKeepsInv(s, LoopStep(s), Next(s, LoopStep(s)));
      Alone(Next(s, LoopStep(s)), n - 1)
  }

  lemma GoesOn(s: Sys, m: Sys, k: nat, n: nat)
    requires Inv(s) && InBounds(s) && !s.phase.Stopped? && m == Next(s, LoopStep(s)) && Inv(m) && n == k + 1
    ensures Alone(s, n) == Alone(m, k)
  {
  }

  lemma LookAhead(s: Sys, m: Sys)
    requires Inv(s) && InBounds(s) && s.phase.Scanning? && m == AfterLook(s)
    ensures Inv(m) && InBounds(m) && m.active == s.active && m.pass == s.pass
    ensures m.phase.Deciding? || (s.phase.pos < |s.active| && m.phase.Scanning? && m.phase.pos == s.phase.pos + 1)
         || (s.phase.pos < |s.active| && m.phase.Firing? && m.phase.pos == s.phase.pos)
  {
    StepKeepsInv(s, Look, m);
    InvInBounds(m);
  }

  lemma FiringAhead(s: Sys, m: Sys)
    requires Inv(s) && InBounds(s) && s.phase.Firing? && m == Next(s, FireEnd)
    ensures Inv(m) && |m.active| == |s.active| - 1 && m.pass == s.pass && m.phase == Scanning(s.phase.pos, s.phase.next)
  {
    StepKeepsInv(s, FireEnd, m);
  }

  lemma {:induction false} PassEndsFrom(s: Sys) returns (n: nat)
    requires Inv(s) && s.phase.Scanning?
    ensures s.phase.pos <= |s.active| && n <= 2 * (|s.active| - s.phase.pos) + 1
    ensures Alone(s, n).phase.Deciding? && Alone(s, n).pass == s.pass
    decreases |s.active| - s.phase.pos
  {
    InvInBounds(s);
    var m := AfterLook(s);
    LookAhead(s, m);
    if m.phase.Deciding? {
      n := 1;
      GoesOn(s, m, 0, 1);
    } else if m.phase.Scanning? {
      var k := PassEndsFrom(m);
      n := k + 1;
      GoesOn(s, m, k, n);
    } else {
      var e := Next(m, FireEnd);
      FiringAhead(m, e);
      var k := PassEndsFrom(e);
      n := k + 2;
      GoesOn(m, e, k, k + 1);
      GoesOn(s, m, k + 1, n);
    }
  }

  /** A pass ends: left alone, the loop decides how long to sleep after at most two steps per timer. */
  lemma PassEnds(s: Sys) returns (n: nat)
    requires Reachable(s) && s.phase.Updating?
    ensures Inv(s) && n <= 2 * (|s.active| + |s.additions|) + 2
    ensures Alone(s, n).phase.Deciding? && Alone(s, n).pass == s.pass + 1
  {
    Reached(s);
    InvInBounds(s);
    var m := Next(s, Update);
    StepKeepsInv(s, Update, m);
    var k := PassEndsFrom(m);
    MinusShorter(s.active + s.additions, s.deletions);
    n := k + 1;
  }

  lemma {:induction false} MinusShorter(s: seq<Id>, gone: seq<Id>)
    ensures |Minus(s, gone)| <= |s|
  {
    if s != [] {
      MinusShorter(s[..|s| - 1], gone);
    }
  }
}
