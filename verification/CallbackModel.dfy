/** `Callback`: one atomic pointer per object, exchanged by any number of threads. A state machine whose steps
    are the atomic operations and the points between them. */
module CallbackModel {
  import opened Common

  /** Installed callbacks are numbered in the order they were handed over. */
  type Id = nat

  /** `_cb`: null, `checkout_ptr`, or a callback. */
  datatype Slot = Null | CheckedOut | Cb(id: Id)

  /** An operation between two of its atomic steps. */
  datatype Act =
    | Running(slot: nat, cb: Id)              // `call`, in the callback
    | Returning(slot: nat, back: Option<Id>)  // `call`, before `checkback`
    | RunningLast(cb: Id)                     // `call_and_clear`, in the callback
    | Transferring(slot: nat, moved: Option<Id>) // `move_from_safe_other`, between `extract` and `replace`
    | Disposing(cb: Id)                       // before `delete`

  datatype Event = Begin(id: Id) | End(id: Id) | Deleted(id: Id)

  /** Who holds a callback. */
  datatype Holder = InSlot(slot: nat) | InAct(act: nat) | Gone

  /** `holder` and `log` are history; `latest` is what was last put into a slot by anything but `checkback`. */
  datatype Sys = Sys(
    slots: map<nat, Slot>,
    acts: map<nat, Act>,
    holder: seq<Holder>,
    log: seq<Event>,
    latest: map<nat, Option<Id>>)

  datatype Step =
    | Create(slot: nat)
    | CreateWith(slot: nat)
    | Assign(act: nat, slot: nat)
    | Clear(act: nat, slot: nat)
    | Destroy(act: nat, slot: nat)
    | Call(act: nat, slot: nat)
    | CallAndClear(act: nat, slot: nat)
    | Move(act: nat, slot: nat, from: nat)
    | Return(act: nat)
    | Checkback(act: nat)
    | FinishLast(act: nat)
    | Transfer(act: nat)
    | Dispose(act: nat)

  const INITIAL := Sys(map[], map[], [], [], map[])

  function Held(s: Slot): Option<Id>
  {
    if s.Cb? then Some(s.id) else None
  }

  function SlotOf(cb: Option<Id>): Slot
  {
    if cb.Some? then Cb(cb.value) else Null
  }

  function Carries(a: Act): Option<Id>
  {
    match a
    case Running(_, cb) => Some(cb)
    case Returning(_, back) => back
    case RunningLast(cb) => Some(cb)
    case Transferring(_, cb) => cb
    case Disposing(cb) => Some(cb)
  }

  /** The operation has still to touch this slot. */
  predicate Uses(a: Act, slot: nat)
  {
    (a.Running? || a.Returning? || a.Transferring?) && a.slot == slot
  }

  predicate CallOn(a: Act, slot: nat)
  {
    (a.Running? || a.Returning?) && a.slot == slot
  }

  ghost predicate Enabled(s: Sys, step: Step)
  {
    match step
    case Create(c) => c !in s.slots
    case CreateWith(c) => c !in s.slots
    case Assign(t, c) => t !in s.acts && c in s.slots
    case Clear(t, c) => t !in s.acts && c in s.slots
    case Destroy(t, c) => t !in s.acts && c in s.slots && forall u :: u in s.acts ==> !Uses(s.acts[u], c)
    case Call(t, c) => t !in s.acts && c in s.slots
    case CallAndClear(t, c) => t !in s.acts && c in s.slots
    case Move(t, c, from) => t !in s.acts && c in s.slots && from in s.slots
    case Return(t) => t in s.acts && s.acts[t].Running?
    case Checkback(t) => t in s.acts && s.acts[t].Returning? && s.acts[t].slot in s.slots
    case FinishLast(t) => t in s.acts && s.acts[t].RunningLast?
    case Transfer(t) => t in s.acts && s.acts[t].Transferring? && s.acts[t].slot in s.slots
    case Dispose(t) => t in s.acts && s.acts[t].Disposing?
  }

  /** The operation goes on as `a`, or is over; it now holds what `a` carries. */
  function Continue(s: Sys, t: nat, a: Option<Act>): Sys
    requires a.Some? && Carries(a.value).Some? ==> Carries(a.value).value < |s.holder|
  {
    match a
    case None => s.(acts := s.acts - {t})
    case Some(act) =>
      match Carries(act)
      case None => s.(acts := s.acts[t := act])
      case Some(id) => s.(acts := s.acts[t := act], holder := s.holder[id := InAct(t)])
  }

  function DisposeOf(cb: Option<Id>): Option<Act>
  {
    if cb.Some? then Some(Disposing(cb.value)) else None
  }

  /** A new callback handed over. */
  function Install(s: Sys, c: nat): Sys
  {
    s.(slots := s.slots[c := Cb(|s.holder|)], holder := s.holder + [InSlot(c)], latest := s.latest[c := Some(|s.holder|)])
  }

  function Empty(s: Sys, c: nat): Sys
  {
    s.(slots := s.slots[c := Null], latest := s.latest[c := None])
  }

  function AfterCall(s: Sys, t: nat, c: nat): Sys
    requires c in s.slots && (s.slots[c].Cb? ==> s.slots[c].id < |s.holder|)
  {
    var s1 := s.(slots := s.slots[c := CheckedOut]);
    match Held(s.slots[c])
    case None => Continue(s1, t, Some(Returning(c, None)))
    case Some(cb) => Continue(s1.(log := s.log + [Begin(cb)]), t, Some(Running(c, cb)))
  }

  function AfterCallAndClear(s: Sys, t: nat, c: nat): Sys
    requires c in s.slots && (s.slots[c].Cb? ==> s.slots[c].id < |s.holder|)
  {
    match Held(s.slots[c])
    case None => Empty(s, c)
    case Some(cb) => Continue(Empty(s, c).(log := s.log + [Begin(cb)]), t, Some(RunningLast(cb)))
  }

  /** `compare_exchange_strong(checkout_ptr, back)`, and disposal when it fails. */
  function AfterCheckback(s: Sys, t: nat, c: nat, back: Option<Id>): Sys
    requires c in s.slots && (back.Some? ==> back.value < |s.holder|)
  {
    if s.slots[c] == CheckedOut then
      s.(slots := s.slots[c := SlotOf(back)], acts := s.acts - {t},
         holder := if back.Some? then s.holder[back.value := InSlot(c)] else s.holder)
    else Continue(s, t, DisposeOf(back))
  }

  function AfterTransfer(s: Sys, t: nat, c: nat, cb: Option<Id>): Sys
    requires c in s.slots && (s.slots[c].Cb? ==> s.slots[c].id < |s.holder|) && (cb.Some? ==> cb.value < |s.holder|)
  {
    Continue(s.(slots := s.slots[c := SlotOf(cb)],
                holder := if cb.Some? then s.holder[cb.value := InSlot(c)] else s.holder,
                latest := s.latest[c := cb]),
             t, DisposeOf(Held(s.slots[c])))
  }

  /** Every callback in a slot or an operation was handed over. */
  predicate Known(s: Sys)
  {
    && (forall c :: c in s.slots && s.slots[c].Cb? ==> s.slots[c].id < |s.holder|)
    && (forall t :: t in s.acts && Carries(s.acts[t]).Some? ==> Carries(s.acts[t]).value < |s.holder|)
  }

  function Next(s: Sys, step: Step): Sys
    requires Known(s) && Enabled(s, step)
  {
    match step
    case Create(c) => Empty(s, c)
    case CreateWith(c) => Install(s, c)
    case Assign(t, c) => Continue(Install(s, c), t, DisposeOf(Held(s.slots[c])))
    case Clear(t, c) => Continue(Empty(s, c), t, DisposeOf(Held(s.slots[c])))
    case Destroy(t, c) => Continue(s.(slots := s.slots - {c}, latest := s.latest - {c}), t, DisposeOf(Held(s.slots[c])))
    case Call(t, c) => AfterCall(s, t, c)
    case CallAndClear(t, c) => AfterCallAndClear(s, t, c)
    case Move(t, c, from) => Continue(Empty(s, from), t, Some(Transferring(c, Held(s.slots[from]))))
    case Return(t) =>
      var a := s.acts[t];
      Continue(s.(log := s.log + [End(a.cb)]), t, Some(Returning(a.slot, Some(a.cb))))
    case Checkback(t) => AfterCheckback(s, t, s.acts[t].slot, s.acts[t].back)
    case FinishLast(t) =>
      var a := s.acts[t];
      Continue(s.(log := s.log + [End(a.cb)]), t, Some(Disposing(a.cb)))
    case Transfer(t) => AfterTransfer(s, t, s.acts[t].slot, s.acts[t].moved)
    case Dispose(t) =>
      var id := s.acts[t].cb;
      s.(acts := s.acts - {t}, holder := s.holder[id := Gone], log := s.log + [Deleted(id)])
  }

  // ------------------------------------------------------------ the invariant

  ghost predicate Holds(s: Sys, h: Holder, id: Id)
  {
    match h
    case InSlot(c) => c in s.slots && s.slots[c] == Cb(id)
    case InAct(t) => t in s.acts && Carries(s.acts[t]) == Some(id)
    case Gone => Deleted(id) in s.log
  }

  /** The history names the one holder of every callback but those in `hands`, which nothing holds. */
  ghost predicate OwnedBut(slots: map<nat, Slot>, acts: map<nat, Act>, holder: seq<Holder>, hands: set<Id>)
  {
    && (forall c :: c in slots && slots[c].Cb? ==>
          slots[c].id < |holder| && holder[slots[c].id] == InSlot(c) && slots[c].id !in hands)
    && (forall t :: t in acts && Carries(acts[t]).Some? ==>
          var id := Carries(acts[t]).value; id < |holder| && holder[id] == InAct(t) && id !in hands)
    && (forall id :: 0 <= id < |holder| && id !in hands ==>
          match holder[id]
          case InSlot(c) => c in slots && slots[c] == Cb(id)
          case InAct(t) => t in acts && Carries(acts[t]) == Some(id)
          case Gone => true)
    && (forall id :: id in hands ==> id < |holder| && !holder[id].Gone?)
  }

  ghost predicate Owned(s: Sys)
  {
    OwnedBut(s.slots, s.acts, s.holder, {})
  }

  /** Nothing happens to a deleted callback. */
  predicate NothingAfterDelete(log: seq<Event>)
  {
    log == [] || (NothingAfterDelete(log[..|log| - 1]) && Deleted(log[|log| - 1].id) !in log[..|log| - 1])
  }

  ghost predicate LogOk(log: seq<Event>, holder: seq<Holder>)
  {
    && NothingAfterDelete(log)
    && (forall id: Id :: Deleted(id) in log <==> id < |holder| && holder[id] == Gone)
  }

  /** A slot that is checked out has a call that will check it back. */
  ghost predicate OutsPending(slots: map<nat, Slot>, acts: map<nat, Act>)
  {
    forall c :: c in slots && slots[c] == CheckedOut ==> exists t :: t in acts && CallOn(acts[t], c)
  }

  ghost predicate SlotsAlive(slots: map<nat, Slot>, acts: map<nat, Act>)
  {
    forall t, c :: t in acts && Uses(acts[t], c) ==> c in slots
  }

  ghost predicate Inv(s: Sys)
  {
    Owned(s) && LogOk(s.log, s.holder) && OutsPending(s.slots, s.acts) && SlotsAlive(s.slots, s.acts)
  }

  lemma InvKnown(s: Sys)
    requires Owned(s)
    ensures Known(s)
  {
  }

  ghost predicate Run(s: Sys, steps: seq<Step>)
    decreases |steps|
  {
    steps == [] || (Known(s) && Enabled(s, steps[0]) && Run(Next(s, steps[0]), steps[1..]))
  }

  ghost function Final(s: Sys, steps: seq<Step>): Sys
    requires Run(s, steps)
    decreases |steps|
  {
    if steps == [] then s else Final(Next(s, steps[0]), steps[1..])
  }
}
