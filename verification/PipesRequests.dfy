/** What the users asked for, taken from the list of steps, and what the other end's user was given of it. */
module PipesRequests {
  import opened Common
  import opened PipesModel
  import opened PipesPair
  import N = PipesNet
  import opened PipesTheorems

  // ------------------------------------------------------------ runs, from their ends

  lemma {:induction false} RunSplit(n: N.Net, steps: seq<N.Step>)
    requires N.Run(n, steps) && steps != []
    ensures var init, last := steps[..|steps| - 1], steps[|steps| - 1];
            && N.Run(n, init) && N.Enabled(N.Final(n, init), last)
            && N.Final(n, steps) == N.Next(N.Final(n, init), last)
    decreases |steps|
  {
    var init, last := steps[..|steps| - 1], steps[|steps| - 1];
    if |steps| == 1 {
      assert steps == [last] && init == [] && steps[1..] == [];
      var m := N.Next(n, last);
      assert N.Run(m, []) && N.Final(m, []) == m;
    } else {
      RunSplit(N.Next(n, steps[0]), steps[1..]);
      assert steps[1..][..|steps| - 2] == init[1..];
      assert init[0] == steps[0];
    }
  }

  /** The step is something the user at this end did with this pipe. */
  predicate Does(step: N.Step, atA: bool, id: U32)
  {
    step.atA == atA && step.act.Use? && step.act.id == id
  }

  /** The content of the first `start` or `start_client` of a pipe. */
  function Asked(steps: seq<N.Step>, atA: bool, id: U32): Option<Bytes>
  {
    if steps == [] then None
    else
      var was, last := Asked(steps[..|steps| - 1], atA, id), steps[|steps| - 1];
      if was.Some? || !Does(last, atA, id) then was
      else match last.act.op
           case Start => Some([])
           case StartClient(data) => Some(data)
           case _ => None
  }

  /** Everything sent down a pipe at one end. */
  function Sent(steps: seq<N.Step>, atA: bool, id: U32): seq<Bytes>
  {
    if steps == [] then []
    else
      var was, last := Sent(steps[..|steps| - 1], atA, id), steps[|steps| - 1];
      if Does(last, atA, id) && last.act.op.SendData? then was + [last.act.op.data] else was
  }

  // ------------------------------------------------------------ requests

  /** Requests under way and pipes made of them carry what was asked. */
  ghost predicate Carries(v: View, asked: Option<Bytes>)
  {
    && (v.o == None || v.o.value.state == Fresh ==> asked == None)
    && (forall k :: 0 <= k < |v.toP| && v.toP[k].Req? ==> asked == Some(v.toP[k].data))
    && (v.p.Some? ==> asked == Some(v.p.value.content))
  }

  lemma OpenCarries(v: View)
    requires v.o == None && Carries(v, None)
    ensures Carries(v.(o := Some(NewPipe(true))), None)
  {
  }

  lemma InitiatorCarries(v: View, o: Pipe, op: Op, asked: Option<Bytes>, now: Option<Bytes>)
    requires v.o == Some(o) && Carries(v, asked)
    requires now == if asked.Some? then asked
                    else match op case Start => Some([]) case StartClient(d) => Some(d) case _ => None
    ensures Carries(v.(o := Some(Apply(o, op)), toP := Post(v.toP, Emits(o, op))), now)
  {
    var toP := Post(v.toP, Emits(o, op));
    forall k | 0 <= k < |toP| && toP[k].Req? ensures now == Some(toP[k].data) {
      assert k < |v.toP| ==> toP[k] == v.toP[k];
    }
  }

  lemma AcceptorCarries(v: View, p: Pipe, op: Op, asked: Option<Bytes>)
    requires v.p == Some(p) && Carries(v, asked)
    ensures Carries(v.(p := Some(Apply(p, op)), toO := Post(v.toO, Emits(p, op))), asked)
  {
  }

  lemma InitiatorHearsCarries(v: View, asked: Option<Bytes>)
    requires v.toO != [] && Carries(v, asked)
    ensures Carries(v.(o := Receive(v.o, true, v.toO[0]), toO := v.toO[1..]), asked)
  {
  }

  lemma AcceptorHearsCarries(v: View, asked: Option<Bytes>)
    requires v.toP != [] && Carries(v, asked)
    ensures Carries(v.(p := Receive(v.p, false, v.toP[0]), toP := v.toP[1..]), asked)
  {
  }

  lemma DownCarries(v: View, asked: Option<Bytes>)
    requires Carries(v, asked)
    ensures Carries(v.(o := N.DownedOption(v.o)), asked) && Carries(v.(p := N.DownedOption(v.p)), asked)
  {
  }

  /** What is asked after one more act of the user. */
  function AskedNow(asked: Option<Bytes>, op: Op): Option<Bytes>
  {
    if asked.Some? then asked
    else match op
         case Start => Some([])
         case StartClient(data) => Some(data)
         case _ => None
  }

  lemma UseCarries(n: N.Net, i: U32, op: Op, m: N.Net, id: U32, asked: Option<Bytes>)
    requires N.Inv(n) && N.EnabledA(n, N.Use(i, op)) && m == N.NextA(n, N.Use(i, op)) && Carries(N.ViewOf(n, id), asked)
    ensures m.fromA <= |m.a.out|
    ensures Carries(N.ViewOf(m, id), if i == id && Mine(n.a.isClient, id) then AskedNow(asked, op) else asked)
  {
    var v := N.ViewOf(n, id);
    if i != id {
      N.UseElsewhere(n, i, op, m, id);
    } else {
      var p := n.a.pipes[id];
      N.PostedIs(n.a.out, n.fromA, id, Emits(p, op), id);
      if Mine(n.a.isClient, id) {
        InitiatorCarries(v, p, op, asked, AskedNow(asked, op));
        assert N.ViewOf(m, id) == v.(o := Some(Apply(p, op)), toP := Post(v.toP, Emits(p, op)));
      } else {
        AcceptorCarries(v, p, op, asked);
        assert N.ViewOf(m, id) == v.(p := Some(Apply(p, op)), toO := Post(v.toO, Emits(p, op)));
      }
    }
  }

  lemma DeliverCarries(n: N.Net, m: N.Net, id: U32, asked: Option<Bytes>)
    requires N.Inv(n) && N.EnabledA(n, N.Deliver) && m == N.NextA(n, N.Deliver) && Carries(N.ViewOf(n, id), asked)
    ensures m.fromB <= |m.b.out| && Carries(N.ViewOf(m, id), asked)
  {
    var v, x := N.ViewOf(n, id), n.b.out[n.fromB];
    N.HeadIs(n, x, id);
    if x.id != id {
      N.DeliverElsewhere(n, m, x, id);
    } else if Mine(n.a.isClient, id) {
      InitiatorHearsCarries(v, asked);
      assert N.ViewOf(m, id) == v.(o := Receive(v.o, true, v.toO[0]), toO := v.toO[1..]);
    } else {
      AcceptorHearsCarries(v, asked);
      assert N.ViewOf(m, id) == v.(p := Receive(v.p, false, v.toP[0]), toP := v.toP[1..]);
    }
  }

  lemma OpensCarries(n: N.Net, m: N.Net, id: U32, asked: Option<Bytes>)
    requires N.Inv(n) && N.EnabledA(n, N.Open) && m == N.NextA(n, N.Open) && Carries(N.ViewOf(n, id), asked)
    ensures Carries(N.ViewOf(m, id), asked)
  {
    var v := N.ViewOf(n, id);
    assert PairInv(v);
    N.FreshId(n.a);
    if id == n.a.nextId {
      OpenCarries(v);
      assert N.ViewOf(m, id) == v.(o := Some(NewPipe(true)));
    } else {
      assert N.ViewOf(m, id) == v;
    }
  }

  lemma DownsCarries(n: N.Net, m: N.Net, id: U32, asked: Option<Bytes>)
    requires N.Inv(n) && N.EnabledA(n, N.Down) && m == N.NextA(n, N.Down) && Carries(N.ViewOf(n, id), asked)
    ensures Carries(N.ViewOf(m, id), asked)
  {
    var v := N.ViewOf(n, id);
    DownCarries(v, asked);
    assert N.ViewOf(m, id)
        == if Mine(n.a.isClient, id) then v.(o := N.DownedOption(v.o)) else v.(p := N.DownedOption(v.p));
  }

  lemma ActCarries(n: N.Net, act: N.Act, m: N.Net, id: U32, asked: Option<Bytes>)
    requires N.Inv(n) && N.EnabledA(n, act) && m == N.NextA(n, act) && Carries(N.ViewOf(n, id), asked)
    ensures m.fromA <= |m.a.out| && m.fromB <= |m.b.out|
    ensures Carries(N.ViewOf(m, id),
                    if act.Use? && act.id == id && Mine(n.a.isClient, id) then AskedNow(asked, act.op) else asked)
  {
    match act
    case Open => OpensCarries(n, m, id, asked);
    case Use(i, op) => UseCarries(n, i, op, m, id, asked);
    case Deliver => DeliverCarries(n, m, id, asked);
    case Down => DownsCarries(n, m, id, asked);
  }

  lemma StepCarries(n: N.Net, step: N.Step, m: N.Net, id: U32, asked: Option<Bytes>)
    requires N.Inv(n) && N.Enabled(n, step) && m == N.Next(n, step) && Carries(N.ViewOf(n, id), asked)
    ensures m.fromA <= |m.a.out| && m.fromB <= |m.b.out| && m.a.isClient == n.a.isClient
    ensures Carries(N.ViewOf(m, id),
                    if Does(step, Mine(n.a.isClient, id), id) then AskedNow(asked, step.act.op) else asked)
  {
    if step.atA {
      ActCarries(n, step.act, m, id, asked);
    } else {
      N.SwapInv(n);
      N.SwapView(n, id);
      var w := N.NextA(N.Swap(n), step.act);
      ActCarries(N.Swap(n), step.act, w, id, asked);
      N.SwapView(w, id);
    }
  }

  lemma {:induction false} RunCarries(steps: seq<N.Step>, id: U32)
    requires N.Run(N.INITIAL, steps)
    ensures var n := N.Final(N.INITIAL, steps);
            && N.Inv(n) && n.a.isClient
            && Carries(N.ViewOf(n, id), Asked(steps, id % 2 == 1, id))
  {
    N.InitialInv();
    N.RunKeepsInv(N.INITIAL, steps);
    if steps != [] {
      var init, last := steps[..|steps| - 1], steps[|steps| - 1];
      RunSplit(N.INITIAL, steps);
      RunCarries(init, id);
      StepCarries(N.Final(N.INITIAL, init), last, N.Final(N.INITIAL, steps), id, Asked(init, id % 2 == 1, id));
    }
  }

  /** In every run an accepting user is handed, with the pipe, exactly what the first `start_client` of that pipe was
      given at the other end, or nothing if that was a `start`. */
  lemma ContentIsWhatWasAsked(steps: seq<N.Step>, id: U32)
    requires N.Run(N.INITIAL, steps)
    ensures var n := N.Final(N.INITIAL, steps);
            && (id % 2 == 1 && id in n.b.pipes ==> Asked(steps, true, id) == Some(n.b.pipes[id].content))
            && (id % 2 == 0 && id in n.a.pipes ==> Asked(steps, false, id) == Some(n.a.pipes[id].content))
  {
    RunCarries(steps, id);
  }

  // ------------------------------------------------------------ data

  function SentAt(e: Endpoint, id: U32): seq<Bytes>
  {
    if id in e.pipes then e.pipes[id].sent else []
  }

  /** The history of what an endpoint sent is what its users sent. */
  ghost predicate Remembers(e: Endpoint, steps: seq<N.Step>, atA: bool, id: U32)
  {
    SentAt(e, id) == Sent(steps, atA, id)
  }

  lemma OpenSends(e: Endpoint, id: U32)
    requires e.nextId !in e.pipes
    ensures SentAt(OpenPipe(e), id) == SentAt(e, id)
  {
  }

  lemma UseSends(e: Endpoint, i: U32, op: Op, id: U32)
    requires i in e.pipes
    ensures SentAt(Use(e, i, op), id) == SentAt(e, id) + (if i == id && op.SendData? then [op.data] else [])
  {
  }

  lemma HearsSends(p: Pipe, body: Body)
    ensures Hears(p, body).sent == p.sent
  {
  }

  lemma PacketSends(e: Endpoint, x: Packet, id: U32)
    requires x.id in e.pipes && !Mine(e.isClient, x.id) ==> !x.body.Req?
    ensures SentAt(OnPacket(e, x), id) == SentAt(e, id)
  {
    if x.id in e.pipes {
      HearsSends(e.pipes[x.id], x.body);
    }
  }

  lemma DownSends(e: Endpoint, id: U32)
    ensures SentAt(OnDown(e), id) == SentAt(e, id)
  {
  }

  lemma ActRemembers(n: N.Net, act: N.Act, m: N.Net, id: U32)
    requires N.Inv(n) && N.EnabledA(n, act) && m == N.NextA(n, act)
    ensures m.b == n.b
    ensures SentAt(m.a, id) == SentAt(n.a, id) + (if act.Use? && act.id == id && act.op.SendData? then [act.op.data] else [])
  {
    match act
    case Open =>
      N.FreshId(n.a);
      OpenSends(n.a, id);
    case Use(i, op) => UseSends(n.a, i, op, id);
    case Deliver =>
      var x := n.b.out[n.fromB];
      if x.id in n.a.pipes && !Mine(n.a.isClient, x.id) {
        NoSecondRequest(n, x);
      }
      PacketSends(n.a, x, id);
    case Down => DownSends(n.a, id);
  }

  lemma StepRemembers(n: N.Net, steps: seq<N.Step>, step: N.Step, m: N.Net, id: U32)
    requires N.Inv(n) && N.Enabled(n, step) && m == N.Next(n, step)
    requires Remembers(n.a, steps, true, id) && Remembers(n.b, steps, false, id)
    ensures Remembers(m.a, steps + [step], true, id) && Remembers(m.b, steps + [step], false, id)
  {
    assert (steps + [step])[..|steps|] == steps;
    if step.atA {
      ActRemembers(n, step.act, m, id);
    } else {
      N.SwapInv(n);
      ActRemembers(N.Swap(n), step.act, N.NextA(N.Swap(n), step.act), id);
    }
  }

  lemma {:induction false} RunRemembers(steps: seq<N.Step>, id: U32)
    requires N.Run(N.INITIAL, steps)
    ensures var n := N.Final(N.INITIAL, steps);
            Remembers(n.a, steps, true, id) && Remembers(n.b, steps, false, id)
  {
    if steps != [] {
      var init, last := steps[..|steps| - 1], steps[|steps| - 1];
      RunSplit(N.INITIAL, steps);
      RunRemembers(init, id);
      N.InitialInv();
      N.RunKeepsInv(N.INITIAL, init);
      StepRemembers(N.Final(N.INITIAL, init), init, last, N.Final(N.INITIAL, steps), id);
      assert init + [last] == steps;
    }
  }

  /** In every run what a user was given is a prefix of what the other end's user sent down the pipe, by the list of
      steps. */
  lemma GivenIsPrefixOfSent(steps: seq<N.Step>, id: U32)
    requires N.Run(N.INITIAL, steps)
    ensures var n := N.Final(N.INITIAL, steps);
            && (id in n.a.pipes && id in n.b.pipes ==>
                 Got(n.b.pipes[id].log) <= Sent(steps, true, id) && Got(n.a.pipes[id].log) <= Sent(steps, false, id))
  {
    RunRemembers(steps, id);
    if id in N.Final(N.INITIAL, steps).a.pipes && id in N.Final(N.INITIAL, steps).b.pipes {
      DeliveredPrefixes(N.Final(N.INITIAL, steps), id);
    }
  }
}
