/** The timer lists of `EventEmitter` as an object: adding, cancelling, and the two halves of one turn of the
    loop when no other thread comes between. */
module EmitterLoop {
  import opened Common
  import opened EmitterModel

  /** The timers of a list that were not due when looked at, the k-th at time `nows[k]`; and those that were. */
  function Kept(ids: seq<Id>, expiry: seq<int>, nows: seq<int>): seq<Id>
    requires |ids| <= |nows| && forall i :: 0 <= i < |ids| ==> ids[i] < |expiry|
  {
    if ids == [] then []
    else
      var k := |ids| - 1;
      if expiry[ids[k]] <= nows[k] then Kept(ids[..k], expiry, nows) else Kept(ids[..k], expiry, nows) + [ids[k]]
  }

  function Due(ids: seq<Id>, expiry: seq<int>, nows: seq<int>): seq<Id>
    requires |ids| <= |nows| && forall i :: 0 <= i < |ids| ==> ids[i] < |expiry|
  {
    if ids == [] then []
    else
      var k := |ids| - 1;
      if expiry[ids[k]] <= nows[k] then Due(ids[..k], expiry, nows) + [ids[k]] else Due(ids[..k], expiry, nows)
  }

  /** Every timer looked at is fired or kept, never both, never lost. */
  lemma {:induction false} KeptOrDue(ids: seq<Id>, expiry: seq<int>, nows: seq<int>, x: Id)
    requires |ids| <= |nows| && forall i :: 0 <= i < |ids| ==> ids[i] < |expiry|
    ensures multiset(ids)[x] == multiset(Kept(ids, expiry, nows))[x] + multiset(Due(ids, expiry, nows))[x]
  {
    if ids != [] {
      var k := |ids| - 1;
      KeptOrDue(ids[..k], expiry, nows, x);
      assert ids == ids[..k] + [ids[k]];
    }
  }

  ghost predicate IsEarliest(expiry: seq<int>, ids: seq<Id>, next: Option<int>)
  {
    && (forall i :: 0 <= i < |ids| ==> ids[i] < |expiry| && next.Some? && next.value <= expiry[ids[i]])
    && (next.Some? ==> exists i :: 0 <= i < |ids| && expiry[ids[i]] == next.value)
  }

  lemma EarliestSnoc(expiry: seq<int>, ids: seq<Id>, next: Option<int>, x: Id)
    requires IsEarliest(expiry, ids, next) && x < |expiry|
    ensures IsEarliest(expiry, ids + [x], Earliest(next, expiry[x]))
  {
    var now := ids + [x];
    assert now[|ids|] == x;
    if next.Some? {
      var i :| 0 <= i < |ids| && expiry[ids[i]] == next.value;
      assert now[i] == ids[i];
    }
  }

  lemma MinusSnoc(s: seq<Id>, gone: seq<Id>, d: Id)
    ensures Minus(Minus(s, gone), [d]) == Minus(s, gone + [d])
  {
    if s != [] {
      MinusSnoc(s[..|s| - 1], gone, d);
      var m, last := Minus(s[..|s| - 1], gone), s[|s| - 1];
      assert last in gone + [d] <==> last in gone || last == d;
      assert (m + [last])[..|m|] == m;
    }
  }

  lemma MinusNone(s: seq<Id>)
    ensures Minus(s, []) == s
  {
    if s != [] {
      MinusNone(s[..|s| - 1]);
      assert s == s[..|s| - 1] + [s[|s| - 1]];
    }
  }

  lemma {:induction false} MinusOne(s: seq<Id>, d: Id)
    ensures d !in Minus(s, [d]) && (d !in s ==> Minus(s, [d]) == s)
    ensures forall x :: x in s && x != d ==> x in Minus(s, [d])
  {
    if s != [] {
      MinusOne(s[..|s| - 1], d);
      assert s == s[..|s| - 1] + [s[|s| - 1]];
    }
  }

  /** Taking timer `k` of the whole list at position `it` of what is left of it. */
  lemma LookAt(all: seq<Id>, k: nat, timers: seq<Id>, it: nat)
    requires k < |all| && it < |timers| && timers[it..] == all[k..]
    ensures timers[it] == all[k] && timers[it + 1..] == all[k + 1..]
    ensures timers[..it + 1] == timers[..it] + [timers[it]]
    ensures RemoveAt(timers, it)[..it] == timers[..it] && RemoveAt(timers, it)[it..] == all[k + 1..]
  {
    assert timers[it..][0] == all[k..][0];
    assert timers[it..][1..] == timers[it + 1..] && all[k..][1..] == all[k + 1..];
  }

  /** A timer that is due when looked at goes to the fired ones, any other stays. */
  lemma OneMore(all: seq<Id>, expiry: seq<int>, nows: seq<int>, k: nat)
    requires k < |all| == |nows| && forall i :: 0 <= i < |all| ==> all[i] < |expiry|
    ensures Kept(all[..k + 1], expiry, nows)
            == if expiry[all[k]] <= nows[k] then Kept(all[..k], expiry, nows) else Kept(all[..k], expiry, nows) + [all[k]]
    ensures Due(all[..k + 1], expiry, nows)
            == if expiry[all[k]] <= nows[k] then Due(all[..k], expiry, nows) + [all[k]] else Due(all[..k], expiry, nows)
  {
    assert all[..k + 1][..k] == all[..k];
  }

  /** The list, what was fired and the earliest expiry kept, with the first `k` timers of the list looked at and
      the loop at position `it` of what is left. */
  ghost predicate Looked(all: seq<Id>, expiry: seq<int>, nows: seq<int>, k: nat,
                         timers: seq<Id>, it: nat, fired: seq<Id>, next: Option<int>)
  {
    && k <= |all| == |nows| && it <= |timers| && (forall i :: 0 <= i < |all| ==> all[i] < |expiry|)
    && timers[..it] == Kept(all[..k], expiry, nows) && timers[it..] == all[k..]
    && fired == Due(all[..k], expiry, nows)
    && IsEarliest(expiry, timers[..it], next)
  }

  lemma LookDue(all: seq<Id>, expiry: seq<int>, nows: seq<int>, k: nat, timers: seq<Id>, it: nat, fired: seq<Id>, next: Option<int>)
    requires Looked(all, expiry, nows, k, timers, it, fired, next) && it < |timers|
    ensures k < |all| && timers[it] == all[k]
    ensures expiry[all[k]] <= nows[k] ==>
              Looked(all, expiry, nows, k + 1, RemoveAt(timers, it), it, fired + [timers[it]], next)
  {
    assert |timers[it..]| == |all[k..]|;
    LookAt(all, k, timers, it);
    OneMore(all, expiry, nows, k);
  }

  lemma LookKept(all: seq<Id>, expiry: seq<int>, nows: seq<int>, k: nat, timers: seq<Id>, it: nat, fired: seq<Id>, next: Option<int>)
    requires Looked(all, expiry, nows, k, timers, it, fired, next) && it < |timers| && k < |all|
    requires expiry[all[k]] > nows[k]
    ensures Looked(all, expiry, nows, k + 1, timers, it + 1, fired, Earliest(next, expiry[all[k]]))
  {
    LookAt(all, k, timers, it);
    OneMore(all, expiry, nows, k);
    EarliestSnoc(expiry, timers[..it], next, timers[it]);
  }

  class EventEmitter {
    var expiry: seq<int>
    var additions: seq<Id>
    var timers: seq<Id>
    var deletions: seq<Id>
    ghost var fired: seq<Id>

    ghost predicate Valid()
      reads this
    {
      forall i :: 0 <= i < |timers + additions| ==> (timers + additions)[i] < |expiry|
    }

    constructor ()
      ensures Valid() && expiry == [] && additions == timers == deletions == fired == []
    {
      expiry, additions, timers, deletions, fired := [], [], [], [], [];
    }

    method AddTimer(at: int) returns (id: Id)
      requires Valid()
      modifies this
      ensures Valid() && id == |old(expiry)| && expiry == old(expiry) + [at] && additions == old(additions) + [id]
      ensures timers == old(timers) && deletions == old(deletions) && fired == old(fired)
    {
      id := |expiry|;
      expiry := expiry + [at];
      additions := additions + [id];
      assert forall i :: 0 <= i < |timers| ==> timers[i] == (timers + old(additions))[i];
      assert forall i :: 0 <= i < |old(additions)| ==> old(additions)[i] == (timers + old(additions))[|timers| + i];
    }

    /** `cancel_timer`, the same as `AfterCancel` on the lists. */
    method CancelTimer(id: Id)
      modifies this
      ensures timers == old(timers) && expiry == old(expiry) && fired == old(fired)
      ensures id in timers ==> deletions == old(deletions) + [id] && additions == old(additions)
      ensures id !in timers ==> deletions == old(deletions) && additions == Minus(old(additions), [id]) && id !in additions
      ensures forall s: Sys :: s.additions == old(additions) && s.active == old(timers) && s.deletions == old(deletions) ==>
                additions == AfterCancel(s, id).additions && deletions == AfterCancel(s, id).deletions
    {
      MinusOne(additions, id);
      if id in timers {
        deletions := deletions + [id];
      } else if id in additions {
        additions := Minus(additions, [id]);
      }
    }

    /** The start of a turn, the same as `AfterUpdate` on the lists. */
    method UpdateTimers()
      modifies this
      ensures timers == Minus(old(timers) + old(additions), old(deletions)) && additions == [] && deletions == []
      ensures expiry == old(expiry) && fired == old(fired)
    {
      timers := timers + additions;
      additions := [];
      ghost var all := timers;
      MinusNone(all);
      var k := 0;
      while k < |deletions|
        invariant k <= |deletions| && deletions == old(deletions) && timers == Minus(all, deletions[..k])
        invariant additions == [] && expiry == old(expiry) && fired == old(fired)
      {
        MinusSnoc(all, deletions[..k], deletions[k]);
        assert deletions[..k] + [deletions[k]] == deletions[..k + 1];
        timers := Minus(timers, [deletions[k]]);
        k := k + 1;
      }
      assert deletions[..k] == deletions;
      deletions := [];
    }

    /** Run what has expired: the k-th timer of the list is looked at when the clock shows `nows[k]`. */
    method RunExpired(nows: seq<int>) returns (next: Option<int>)
      requires |nows| == |timers| && forall i :: 0 <= i < |timers| ==> timers[i] < |expiry|
      modifies this
      ensures expiry == old(expiry) && additions == old(additions) && deletions == old(deletions)
      ensures timers == Kept(old(timers), expiry, nows) && fired == old(fired) + Due(old(timers), expiry, nows)
      ensures IsEarliest(expiry, timers, next)
    {
      next := None;
      ghost var all, ran := timers, [];
      var it, k := 0, 0;
      while it < |timers|
        invariant Looked(all, expiry, nows, k, timers, it, ran, next) && fired == old(fired) + ran
        invariant expiry == old(expiry) && additions == old(additions) && deletions == old(deletions)
        decreases |all| - k
      {
        LookDue(all, expiry, nows, k, timers, it, ran, next);
        if expiry[timers[it]] <= nows[k] {
          AppendAssoc(old(fired), ran, [timers[it]]);
          fired, ran := fired + [timers[it]], ran + [timers[it]];
          timers := RemoveAt(timers, it);
        } else {
          LookKept(all, expiry, nows, k, timers, it, ran, next);
          next := Earliest(next, expiry[timers[it]]);
          it := it + 1;
        }
        k := k + 1;
      }
      assert |timers[it..]| == |all[k..]| && all[..k] == all && timers[..it] == timers;
    }
  }
}
