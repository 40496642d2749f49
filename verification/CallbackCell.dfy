/** `Callback` as an object used by one thread, where the callbacks being run may themselves assign, clear and
    call the object they are run from, to any depth. What other threads do between the atomic steps is in
    `CallbackModel`. */
module CallbackCell {
  import opened Common

  type Id = nat

  /** A callback: its number, and what it does with the object when it is run. */
  datatype Function = Function(id: Id, body: seq<Op>)
  datatype Op = Assign(f: Function) | Clear | Call | CallAndClear

  /** `_cb`: null, `checkout_ptr`, or a callback. */
  datatype Pointer = Null | CheckedOut | Set(f: Function)

  /** The pointer and the history: callbacks run, deleted, and handed over. */
  datatype Cell = Cell(cb: Pointer, ran: seq<Id>, deleted: seq<Id>, given: seq<Id>)

  // ------------------------------------------------------------ what an operation does

  function Size(ops: seq<Op>): nat
  {
    if ops == [] then 0 else SizeOfOp(ops[0]) + Size(ops[1..])
  }

  function SizeOfOp(op: Op): nat
  {
    if op.Assign? then 2 + Size(op.f.body) else 1
  }

  function SizeOf(p: Pointer): nat
  {
    if p.Set? then 1 + Size(p.f.body) else 0
  }

  function Disposed(c: Cell, p: Pointer): Cell
  {
    if p.Set? then c.(deleted := c.deleted + [p.f.id]) else c
  }

  function Replaced(c: Cell, p: Pointer): Cell
  {
    Disposed(c.(cb := p), c.cb)
  }

  function CheckedBack(c: Cell, back: Pointer): Cell
  {
    if c.cb == CheckedOut then c.(cb := back) else Disposed(c, back)
  }

  function Perform(c: Cell, op: Op): (r: Cell)
    ensures r.cb != CheckedOut && SizeOf(r.cb) < SizeOfOp(op) + SizeOf(c.cb)
    decreases SizeOfOp(op) + SizeOf(c.cb), 0
  {
    match op
    case Assign(f) => Replaced(c.(given := c.given + [f.id]), Set(f))
    case Clear => Replaced(c, Null)
    case Call =>
      if c.cb.Set? then
        CheckedBack(PerformAll(c.(cb := CheckedOut, ran := c.ran + [c.cb.f.id]), c.cb.f.body), c.cb)
      else c.(cb := Null)
    case CallAndClear =>
      if c.cb.Set? then
        Disposed(PerformAll(c.(cb := Null, ran := c.ran + [c.cb.f.id]), c.cb.f.body), c.cb)
      else c.(cb := Null)
  }

  function PerformAll(c: Cell, ops: seq<Op>): (r: Cell)
    ensures SizeOf(r.cb) <= Size(ops) + SizeOf(c.cb)
    ensures r.cb == CheckedOut <==> ops == [] && c.cb == CheckedOut
    decreases Size(ops) + SizeOf(c.cb), 1
  {
    if ops == [] then c else PerformAll(Perform(c, ops[0]), ops[1..])
  }

  // ------------------------------------------------------------ what is promised of it

  function Held(p: Pointer): multiset<Id>
  {
    if p.Set? then multiset{p.f.id} else multiset{}
  }

  /** How often a callback was handed over, less how often it was deleted and whether the pointer is it. */
  function Out(c: Cell, x: Id): int
  {
    var given: int, deleted: int, held: int := multiset(c.given)[x], multiset(c.deleted)[x], Held(c.cb)[x];
    given - deleted - held
  }

  ghost predicate Balanced(c: Cell, r: Cell)
  {
    forall x :: Out(r, x) == Out(c, x)
  }

  /** A callback is run with the pointer set to something else, and then is back or is deleted. */
  lemma BodyBalanced(c: Cell, f: Function, start: Cell, m: Cell, r: Cell)
    requires c.cb == Set(f) && !start.cb.Set? && start.deleted == c.deleted && start.given == c.given && Balanced(start, m)
    requires r == Disposed(m, Set(f)) || (m.cb == CheckedOut && r == m.(cb := Set(f)))
    ensures Balanced(c, r)
  {
    forall x ensures Out(r, x) == Out(c, x) {
      assert Out(start, x) == Out(m, x);
      assert multiset(m.deleted + [f.id]) == multiset(m.deleted) + multiset{f.id};
    }
  }

  lemma ReplacedBalanced(c: Cell, p: Pointer, given: seq<Id>)
    requires given == if p.Set? then [p.f.id] else []
    ensures Balanced(c, Replaced(c.(given := c.given + given), p))
  {
    assert c.given + [] == c.given;
    forall x ensures Out(Replaced(c.(given := c.given + given), p), x) == Out(c, x) {
      assert p.Set? ==> multiset(c.given + [p.f.id]) == multiset(c.given) + multiset{p.f.id};
      assert c.cb.Set? ==> multiset(c.deleted + [c.cb.f.id]) == multiset(c.deleted) + multiset{c.cb.f.id};
    }
  }

  lemma {:induction false} RunBalanced(c: Cell, f: Function, cb: Pointer, r: Cell)
    requires c.cb == Set(f) && !cb.Set?
    requires var m := PerformAll(c.(cb := cb, ran := c.ran + [f.id]), f.body);
             r == Disposed(m, Set(f)) || (m.cb == CheckedOut && r == m.(cb := Set(f)))
    ensures Balanced(c, r)
    decreases SizeOf(c.cb), 2
  {
    var start := c.(cb := cb, ran := c.ran + [f.id]);
    PerformAllBalanced(start, f.body);
    BodyBalanced(c, f, start, PerformAll(start, f.body), r);
  }

  lemma {:induction false} PerformBalanced(c: Cell, op: Op)
    ensures Balanced(c, Perform(c, op))
    decreases SizeOfOp(op) + SizeOf(c.cb), 0
  {
    match op
    case Assign(f) => ReplacedBalanced(c, Set(f), [f.id]);
    case Clear =>
      ReplacedBalanced(c, Null, []);
      assert c.given + [] == c.given;
    case Call => if c.cb.Set? { RunBalanced(c, c.cb.f, CheckedOut, Perform(c, op)); }
    case CallAndClear => if c.cb.Set? { RunBalanced(c, c.cb.f, Null, Perform(c, op)); }
  }

  lemma {:induction false} PerformAllBalanced(c: Cell, ops: seq<Op>)
    ensures Balanced(c, PerformAll(c, ops))
    decreases Size(ops) + SizeOf(c.cb), 1
  {
    if ops != [] {
      PerformBalanced(c, ops[0]);
      PerformAllBalanced(Perform(c, ops[0]), ops[1..]);
    }
  }

  /** Whatever the callbacks do from within, every callback ever handed over is deleted once or is the one the
      object holds. */
  lemma EachDeletedOnce(ops: seq<Op>)
    ensures var r := PerformAll(Cell(Null, [], [], []), ops);
            multiset(r.given) == multiset(r.deleted) + Held(r.cb) && r.cb != CheckedOut
  {
    var c := Cell(Null, [], [], []);
    var r := PerformAll(c, ops);
    PerformAllBalanced(c, ops);
    forall x ensures multiset(r.given)[x] == (multiset(r.deleted) + Held(r.cb))[x] {
      assert Out(r, x) == Out(c, x) == 0;
    }
  }

  /** A call leaves the pointer as it was exactly if the callback does nothing with the object; otherwise the
      callback is deleted, and what its body left stays. */
  lemma CallbackKeptIff(c: Cell, f: Function)
    requires c.cb == Set(f)
    ensures Perform(c, Call).cb == c.cb <==> f.body == []
    ensures f.body != [] ==> var m := PerformAll(c.(cb := CheckedOut, ran := c.ran + [f.id]), f.body);
                             Perform(c, Call) == m.(deleted := m.deleted + [f.id])
  {
  }

  /** The operations that run nothing: what is there is deleted, a call finds nothing to run, and a call made while
      the mark is there leaves null. */
  lemma PlainOps(c: Cell, f: Function)
    ensures var was := if c.cb.Set? then [c.cb.f.id] else [];
            && Perform(c, Assign(f)) == Cell(Set(f), c.ran, c.deleted + was, c.given + [f.id])
            && Perform(c, Clear) == Cell(Null, c.ran, c.deleted + was, c.given)
    ensures !c.cb.Set? ==> Perform(c, Call) == Perform(c, CallAndClear) == Cell(Null, c.ran, c.deleted, c.given)
  {
    assert c.deleted + [] == c.deleted;
  }

  /** A call runs the callback with the mark in its place: its run is in the history first, then those of its
      body; and if the body does nothing the object is as it was. */
  lemma CallRuns(c: Cell, f: Function)
    requires c.cb == Set(f)
    ensures f.body == [] ==> Perform(c, Call) == Cell(c.cb, c.ran + [f.id], c.deleted, c.given)
    ensures var m := PerformAll(Cell(CheckedOut, c.ran + [f.id], c.deleted, c.given), f.body);
            Perform(c, Call).ran == m.ran && Perform(c, Call).given == m.given
  {
  }

  /** `call_and_clear` runs the callback from null: its run is in the history first, then those of its body; what
      the body leaves stays; and the callback is the last to be deleted. */
  lemma CallAndClearRuns(c: Cell, f: Function)
    requires c.cb == Set(f)
    ensures var m := PerformAll(Cell(Null, c.ran + [f.id], c.deleted, c.given), f.body);
            Perform(c, CallAndClear) == Cell(m.cb, m.ran, m.deleted + [f.id], m.given)
    ensures c.ran + [f.id] <= Perform(c, CallAndClear).ran
  {
    RanGrows(Cell(Null, c.ran + [f.id], c.deleted, c.given), f.body);
  }

  lemma {:induction false} RanGrowsOnce(c: Cell, op: Op)
    ensures c.ran <= Perform(c, op).ran
    decreases SizeOfOp(op) + SizeOf(c.cb), 0
  {
    if c.cb.Set? && op == Call {
      RanGrows(c.(cb := CheckedOut, ran := c.ran + [c.cb.f.id]), c.cb.f.body);
    } else if c.cb.Set? && op == CallAndClear {
      RanGrows(c.(cb := Null, ran := c.ran + [c.cb.f.id]), c.cb.f.body);
    }
  }

  lemma {:induction false} RanGrows(c: Cell, ops: seq<Op>)
    ensures c.ran <= PerformAll(c, ops).ran
    decreases Size(ops) + SizeOf(c.cb), 1
  {
    if ops != [] {
      RanGrowsOnce(c, ops[0]);
      RanGrows(Perform(c, ops[0]), ops[1..]);
    }
  }

  lemma {:induction false} PerformSnoc(c: Cell, ops: seq<Op>, op: Op)
    ensures PerformAll(c, ops + [op]) == Perform(PerformAll(c, ops), op)
    decreases |ops|
  {
    if ops == [] {
      assert [op][1..] == [];
    } else {
      PerformSnoc(Perform(c, ops[0]), ops[1..], op);
      assert (ops + [op])[1..] == ops[1..] + [op];
    }
  }

  /** A callback may replace itself: whatever it did before, what it assigns last is what the object holds
      after the call, and the callback itself is gone. */
  lemma ReplacesItself(c: Cell, f: Function, ops: seq<Op>, g: Function)
    requires c.cb == Set(f) && f.body == ops + [Assign(g)]
    ensures Perform(c, Call).cb == Set(g) && Perform(c, Call).deleted != []
    ensures var d := Perform(c, Call).deleted; d[|d| - 1] == f.id
  {
    PerformSnoc(c.(cb := CheckedOut, ran := c.ran + [f.id]), ops, Assign(g));
  }

  // ------------------------------------------------------------ the object

  class CallbackCell {
    var cb: Pointer
    ghost var ran: seq<Id>
    ghost var deleted: seq<Id>
    ghost var given: seq<Id>

    ghost function State(): Cell
      reads this
    {
      Cell(cb, ran, deleted, given)
    }

    constructor ()
      ensures State() == Cell(Null, [], [], [])
    {
      cb, ran, deleted, given := Null, [], [], [];
    }

    ghost method Dispose(p: Pointer)
      modifies this`deleted
      ensures State() == Disposed(old(State()), p)
    {
      if p.Set? {
        deleted := deleted + [p.f.id];
      }
    }

    method Replace(p: Pointer)
      modifies this`cb, this`deleted
      ensures State() == Replaced(old(State()), p)
    {
      var was := cb;
      cb := p;
      Dispose(was);
    }

    method Do(op: Op)
      modifies this
      ensures State() == Perform(old(State()), op)
      decreases SizeOfOp(op) + SizeOf(cb), 0
    {
      match op
      case Assign(f) =>
        given := given + [f.id];
        Replace(Set(f));
      case Clear => Replace(Null);
      case Call => CallIt();
      case CallAndClear => CallItAndClear();
    }

    method Run(f: Function)
      modifies this
      ensures State() == PerformAll(old(State()).(ran := old(ran) + [f.id]), f.body)
      decreases Size(f.body) + SizeOf(cb), 2
    {
      ran := ran + [f.id];
      DoAll(f.body);
    }

    method DoAll(ops: seq<Op>)
      modifies this
      ensures State() == PerformAll(old(State()), ops)
      decreases Size(ops) + SizeOf(cb), 1
    {
      if ops != [] {
        Do(ops[0]);
        DoAll(ops[1..]);
      }
    }

    /** `call` */
    method CallIt()
      modifies this
      ensures State() == Perform(old(State()), Call)
      decreases SizeOf(cb)
    {
      var was := cb;
      cb := CheckedOut;
      var back := if was.Set? then was else Null;
      if back.Set? {
        Run(back.f);
      }
      if cb == CheckedOut {
        cb := back;
      } else {
        Dispose(back);
      }
    }

    method CallItAndClear()
      modifies this
      ensures State() == Perform(old(State()), CallAndClear)
      decreases SizeOf(cb)
    {
      var was := cb;
      cb := Null;
      if was.Set? {
        Run(was.f);
      }
      Dispose(was);
    }

    /** `move_from_safe_other` */
    method MoveFrom(other: CallbackCell)
      requires other != this
      modifies this, other
      ensures other.State() == old(other.State()).(cb := Null)
      ensures State() == Replaced(old(State()), if old(other.cb).Set? then old(other.cb) else Null)
    {
      var was := other.cb;
      other.cb := Null;
      Replace(if was.Set? then was else Null);
    }
  }
}
