/** The timers of `EventEmitter`: the loop as a state machine, one step per timer looked at, with other threads
    adding and cancelling in between. */
module EmitterModel {
  import opened Common

  /** Timers are numbered in the order they were added. */
  type Id = nat

  /** Where the loop is. `next` is the earliest expiry seen so far in this pass. */
  datatype Phase =
    | Checking
    | Updating
    | Scanning(pos: nat, next: Option<int>)
    | Firing(pos: nat, next: Option<int>)
    | Deciding(next: Option<int>)
    | Sleeping(until: Option<int>)
    | Stopped

  datatype Shot = Shot(id: Id, time: int, pass: nat)

  /** `adding` counts calls of `add_timer` that have inserted and not yet interrupted; `passStart`, `fired` and
      `cancelled` (with the pass of the first effective cancel) are history. */
  datatype Sys = Sys(
    clock: int,
    running: bool,
    expiry: seq<int>,
    additions: seq<Id>,
    active: seq<Id>,
    deletions: seq<Id>,
    phase: Phase,
    interrupt: bool,
    adding: nat,
    pass: nat,
    passStart: int,
    fired: seq<Shot>,
    cancelled: map<Id, nat>)

  datatype Step =
    | Tick(to: int)
    | Insert(expiry: int)
    | Interrupt
    | Cancel(id: Id)
    | Stop
    | Check
    | Update
    | Look
    | FireEnd
    | Decide
    | Wake

  function Initial(clock: int): Sys
  {
    Sys(clock, true, [], [], [], [], Checking, false, 0, 0, clock, [], map[])
  }

  /** The elements not in `gone`, in order. */
  function Minus(s: seq<Id>, gone: seq<Id>): seq<Id>
  {
    if s == [] then []
    else
      var last := s[|s| - 1];
      if last in gone then Minus(s[..|s| - 1], gone) else Minus(s[..|s| - 1], gone) + [last]
  }

  function RemoveAt(s: seq<Id>, i: nat): seq<Id>
    requires i < |s|
  {
    s[..i] + s[i + 1..]
  }

  function Earliest(next: Option<int>, t: int): Option<int>
  {
    if next == None || t < next.value then Some(t) else next
  }

  predicate InBounds(s: Sys)
  {
    && (forall i :: 0 <= i < |s.active| ==> s.active[i] < |s.expiry|)
    && (s.phase.Scanning? ==> s.phase.pos <= |s.active|)
    && (s.phase.Firing? ==> s.phase.pos < |s.active|)
  }

  predicate Enabled(s: Sys, step: Step)
  {
    match step
    case Tick(to) => s.clock <= to
    case Insert(_) => true
    case Interrupt => s.adding > 0
    case Cancel(_) => true
    case Stop => true
    case Check => s.phase.Checking?
    case Update => s.phase.Updating?
    case Look => s.phase.Scanning?
    case FireEnd => s.phase.Firing?
    case Decide => s.phase.Deciding?
    case Wake => s.phase.Sleeping?
  }

  /** `cancel_timer`: an active timer is only marked, one still to be added is taken out, one gone is left. */
  function AfterCancel(s: Sys, id: Id): Sys
  {
    var first := if id in s.cancelled then s.cancelled else s.cancelled[id := s.pass];
    if id in s.active then s.(deletions := s.deletions + [id], cancelled := first)
    else if id in s.additions then s.(additions := Minus(s.additions, [id]), cancelled := first)
    else s
  }

  /** Splice the additions in, then carry out the deletions. */
  function AfterUpdate(s: Sys): Sys
  {
    s.(active := Minus(s.active + s.additions, s.deletions), additions := [], deletions := [],
       pass := s.pass + 1, passStart := s.clock, phase := Scanning(0, None))
  }

  function AfterLook(s: Sys): Sys
    requires InBounds(s) && s.phase.Scanning?
  {
    var pos, next := s.phase.pos, s.phase.next;
    if pos == |s.active| then s.(phase := Deciding(next))
    else
      var id := s.active[pos];
      if s.expiry[id] <= s.clock then s.(phase := Firing(pos, next), fired := s.fired + [Shot(id, s.clock, s.pass)])
      else s.(phase := Scanning(pos + 1, Earliest(next, s.expiry[id])))
  }

  function Next(s: Sys, step: Step): Sys
    requires InBounds(s) && Enabled(s, step)
  {
    match step
    case Tick(to) => s.(clock := to)
    case Insert(e) => s.(expiry := s.expiry + [e], additions := s.additions + [|s.expiry|], adding := s.adding + 1)
    case Interrupt => s.(adding := s.adding - 1, interrupt := true)
    case Cancel(id) => AfterCancel(s, id)
    case Stop => s.(running := false, interrupt := true)
    case Check => s.(phase := if s.running then Updating else Stopped)
    case Update => AfterUpdate(s)
    case Look => AfterLook(s)
    case FireEnd => s.(active := RemoveAt(s.active, s.phase.pos), phase := Scanning(s.phase.pos, s.phase.next))
    case Decide => s.(phase := Sleeping(s.phase.next))
    case Wake => s.(interrupt := false, phase := Checking)
  }

  // ------------------------------------------------------------ the invariant

  ghost predicate NoDup(s: seq<Id>)
  {
    forall i, j :: 0 <= i < j < |s| ==> s[i] != s[j]
  }

  ghost predicate Lists(additions: seq<Id>, active: seq<Id>, count: nat)
  {
    && NoDup(additions) && NoDup(active)
    && (forall x :: x in additions ==> x < count && x !in active)
    && (forall x :: x in active ==> x < count)
  }

  ghost predicate IsFired(fired: seq<Shot>, id: Id)
  {
    exists k :: 0 <= k < |fired| && fired[k].id == id
  }

  ghost predicate ShotOk(s: Sys, f: Shot)
  {
    && f.id < |s.expiry| && s.expiry[f.id] <= f.time <= s.clock && f.pass <= s.pass && f.id !in s.additions
    && (f.id in s.active ==> s.phase.Firing? && s.phase.pos < |s.active| && s.active[s.phase.pos] == f.id)
    && (f.id in s.cancelled ==> f.pass <= s.cancelled[f.id])
  }

  ghost predicate FiredOk(s: Sys)
  {
    && (forall k :: 0 <= k < |s.fired| ==> ShotOk(s, s.fired[k]))
    && (forall j, k :: 0 <= j < k < |s.fired| ==> s.fired[j].id != s.fired[k].id)
    && (s.phase.Firing? ==> s.phase.pos < |s.active| && IsFired(s.fired, s.active[s.phase.pos]))
  }

  /** A cancelled timer is gone, or is to be deleted before the next pass. */
  ghost predicate CancelOk(s: Sys)
  {
    && (forall x :: x in s.cancelled ==> x < |s.expiry| && x !in s.additions && s.cancelled[x] <= s.pass)
    && (forall x :: x in s.cancelled && x in s.active ==> x in s.deletions && s.cancelled[x] == s.pass)
    && (forall x :: x in s.deletions ==> x in s.cancelled)
  }

  ghost predicate NotLost(s: Sys)
  {
    forall x :: 0 <= x < |s.expiry| ==> x in s.additions || x in s.active || IsFired(s.fired, x) || x in s.cancelled
  }

  /** `next` is the earliest expiry of `ids`, and all of them were still to come when the pass began. */
  ghost predicate Seen(expiry: seq<int>, ids: seq<Id>, next: Option<int>, start: int)
  {
    && (forall i :: 0 <= i < |ids| ==> ids[i] < |expiry| && start < expiry[ids[i]])
    && (forall i :: 0 <= i < |ids| ==> next.Some? && next.value <= expiry[ids[i]])
    && (next.Some? ==> exists i :: 0 <= i < |ids| && expiry[ids[i]] == next.value)
  }

  ghost predicate PhaseOk(s: Sys)
  {
    && s.passStart <= s.clock
    && match s.phase
       case Scanning(pos, next) => pos <= |s.active| && Seen(s.expiry, s.active[..pos], next, s.passStart)
       case Firing(pos, next) => pos < |s.active| && Seen(s.expiry, s.active[..pos], next, s.passStart)
       case Deciding(next) => Seen(s.expiry, s.active, next, s.passStart)
       case Sleeping(until) => Seen(s.expiry, s.active, until, s.passStart)
       case _ => true
  }

  /** What was added is taken in before the loop sleeps, or the sleep is going to be interrupted. */
  ghost predicate Wakeful(s: Sys)
  {
    s.additions != [] ==> s.interrupt || s.adding > 0 || s.phase in {Checking, Updating, Stopped}
  }

  ghost predicate Inv(s: Sys)
  {
    Lists(s.additions, s.active, |s.expiry|) && FiredOk(s) && CancelOk(s) && NotLost(s) && PhaseOk(s) && Wakeful(s)
  }

  lemma InvInBounds(s: Sys)
    requires Inv(s)
    ensures InBounds(s)
  {
    forall i | 0 <= i < |s.active| ensures s.active[i] < |s.expiry| {
      assert s.active[i] in s.active;
    }
  }

  lemma InitialInv(clock: int)
    ensures Inv(Initial(clock))
  {
  }
}
