/** One pipe seen from both ends: the initiator's object, the acceptor's, and the packets of its id in flight
    each way; the invariant of the pair, and what every step does to it. */
module PipesPair {
  import opened Common
  import opened PipesModel

  datatype View = View(o: Option<Pipe>, p: Option<Pipe>, toP: seq<Body>, toO: seq<Body>)

  function DataAll(ds: seq<Bytes>): (r: seq<Body>)
    ensures |r| == |ds|
  {
    seq(|ds|, i requires 0 <= i < |ds| => Data(ds[i]))
  }

  lemma DataSnoc(ds: seq<Bytes>, d: Bytes)
    ensures DataAll(ds + [d]) == DataAll(ds) + [Data(d)]
  {
  }

  /** The last `n` of a list. */
  function Last<T>(s: seq<T>, n: nat): (r: seq<T>)
    requires n <= |s|
    ensures |r| == n
  {
    s[|s| - n..]
  }

  lemma LastSnoc<T>(s: seq<T>, n: nat, x: T)
    requires n <= |s|
    ensures Last(s + [x], n + 1) == Last(s, n) + [x]
  {
  }

  lemma LastHead<T>(s: seq<T>, n: nat)
    requires 0 < n <= |s|
    ensures Last(s, n)[0] == s[|s| - n] && Last(s, n)[1..] == Last(s, n - 1)
  {
  }

  // ------------------------------------------------------------ each end by itself

  function PhaseOf(s: OpenState): nat
  {
    match s
    case Opened => 1
    case Closed => 2
    case _ => 0
  }

  ghost predicate PipeOk(p: Pipe)
  {
    && Phase(p.log) == PhaseOf(p.state)
    && (p.state == Closed ==> !p.registered)
    && (p.state in {OpenRequestSent, Opened} ==> p.registered && p.owned)
    && (p.state in {Fresh, OpenRequestRecv} ==> p.registered == p.owned)
    && (PhaseOf(p.state) == 0 ==> Got(p.log) == [] && p.sent == [])
    && (p.closedHere ==> p.state == Closed)
    && (if p.initiator then p.state != OpenRequestRecv else p.state !in {Fresh, OpenRequestSent})
  }

  /** What a user may do: nothing after `drop`, and sending only while the pipe is open. The expiry timer
      may run at any time. */
  predicate Allowed(p: Pipe, op: Op)
  {
    op.Expire? || (p.owned && (op.SendData? ==> p.state == Opened))
  }

  lemma ClosingKeepsOk(p: Pipe, owned: bool, here: bool, q: Pipe)
    requires PipeOk(p) && q == Closing(p).(owned := owned, closedHere := here)
    ensures PipeOk(q) && q.state == Closed && Got(q.log) == Got(p.log)
  {
    PhaseSnoc(p.log, CloseCb);
    GotSnoc(p.log, CloseCb);
  }

  lemma StartKeepsOk(p: Pipe, q: Pipe)
    requires PipeOk(p) && p.owned && q == Apply(p, Start)
    ensures PipeOk(q) && Got(q.log) == Got(p.log)
  {
    PhaseSnoc(p.log, OpenCb);
    GotSnoc(p.log, OpenCb);
  }

  lemma ApplyKeepsOk(p: Pipe, op: Op, q: Pipe)
    requires PipeOk(p) && Allowed(p, op) && q == Apply(p, op)
    ensures PipeOk(q) && Got(q.log) == Got(p.log)
  {
    match op
    case Start => StartKeepsOk(p, q);
    case StartClient(_) =>
    case SendData(_) =>
    case CloseIt => ClosingKeepsOk(p, p.owned, q.closedHere, q);
    case Drop => if p.state == Opened || p.state == OpenRequestSent { ClosingKeepsOk(p, false, q.closedHere, q); }
    case Expire => if p.state == OpenRequestSent { ClosingKeepsOk(p, p.owned, q.closedHere, q); }
  }

  lemma HearsKeepsOk(p: Pipe, b: Body, q: Pipe)
    requires PipeOk(p) && p.registered && q == Hears(p, b)
    ensures PipeOk(q) && q.sent == p.sent
    ensures Got(q.log) == if b.Data? && p.state == Opened then Got(p.log) + [b.data] else Got(p.log)
  {
    PhaseSnoc(p.log, OpenCb);
    PhaseSnoc(p.log, CloseCb);
    GotSnoc(p.log, OpenCb);
    GotSnoc(p.log, CloseCb);
    if b.Data? {
      PhaseSnoc(p.log, PacketCb(b.data));
      GotSnoc(p.log, PacketCb(b.data));
    }
  }

  // ------------------------------------------------------------ the two ends together

  /** What the other end and the packets in flight depend on. */
  datatype End = End(state: OpenState, registered: bool, sent: seq<Bytes>, got: seq<Bytes>, closedHere: bool)

  function EndOf(p: Pipe): End
  {
    End(p.state, p.registered, p.sent, Got(p.log), p.closedHere)
  }

  function EndOfOption(p: Option<Pipe>): Option<End>
  {
    if p == None then None else Some(EndOf(p.value))
  }

  /** Nothing of what the acceptor said was heard yet. */
  ghost predicate Unheard(p: End, toO: seq<Body>)
  {
    match p.state
    case OpenRequestRecv => toO == []
    case Opened => toO == [Resp] + DataAll(p.sent)
    case _ => (toO == [Close] && p.sent == []) || toO == [Resp] + DataAll(p.sent) + [Close]
  }

  ghost predicate WhenSent(p: Option<End>, toP: seq<Body>, toO: seq<Body>)
  {
    if p == None then |toP| == 1 && toP[0].Req? && toO == []
    else toP == [] && Unheard(p.value, toO)
  }

  /** The data in flight to `p` is the end of what was sent, and all that `p`, if open, has not had. */
  ghost predicate InFlight(sent: seq<Bytes>, p: End, toP: seq<Body>)
  {
    && |toP| <= |sent| && toP == DataAll(Last(sent, |toP|))
    && (p.state == Opened ==> |p.got| + |toP| == |sent|)
  }

  function Tail(p: End): seq<Body>
  {
    if p.state == Closed then [Close] else []
  }

  ghost predicate WhenOpened(o: End, p: Option<End>, toP: seq<Body>, toO: seq<Body>)
  {
    && p.Some? && p.value.state in {Opened, Closed}
    && InFlight(o.sent, p.value, toP)
    && |o.got| <= |p.value.sent|
    && toO == DataAll(p.value.sent[|o.got|..]) + Tail(p.value)
  }

  predicate EndsInClose(q: seq<Body>)
  {
    q != [] && q[|q| - 1] == Close
  }

  ghost predicate NeverMet(sent: seq<Bytes>, toP: seq<Body>, toO: seq<Body>)
  {
    toO == [] && sent == [] && (toP == [] || toP == [Close] || (|toP| == 2 && toP[0].Req? && toP[1] == Close))
  }

  /** With the close of the initiator still on its way, or already read, or never sent because `p` closed first. */
  ghost predicate WhenClosed(sent: seq<Bytes>, p: Option<End>, toP: seq<Body>, toO: seq<Body>)
  {
    if p == None then NeverMet(sent, toP, toO)
    else
      && (p.value.state == OpenRequestRecv ==> sent == [])
      && if EndsInClose(toP) then InFlight(sent, p.value, toP[..|toP| - 1])
         else InFlight(sent, p.value, toP)
              && (p.value.state == Closed || (p.value.state == OpenRequestRecv && !p.value.registered))
  }

  ghost predicate Together(o: End, p: Option<End>, toP: seq<Body>, toO: seq<Body>)
  {
    match o.state
    case Fresh => p == None && toP == toO == []
    case OpenRequestSent => WhenSent(p, toP, toO)
    case Opened => WhenOpened(o, p, toP, toO)
    case _ => WhenClosed(o.sent, p, toP, toO)
  }

  ghost predicate Prefixes(o: End, p: Option<End>)
  {
    if p == None then o.got == [] else o.got <= p.value.sent && p.value.got <= o.sent
  }

  /** An end not closed by its own user or timer was closed by the other's, and had been given everything the
      other sent. */
  ghost predicate Complete(o: End, p: Option<End>)
  {
    && (o.state == Closed && !o.closedHere ==> p.Some? && p.value.closedHere && o.got == p.value.sent)
    && (p.Some? && p.value.state == Closed && !p.value.closedHere ==> o.closedHere && p.value.got == o.sent)
  }

  ghost predicate PairInv(v: View)
  {
    if v.o == None then v.p == None && v.toP == v.toO == []
    else
      && v.o.value.initiator && PipeOk(v.o.value)
      && (v.p.Some? ==> !v.p.value.initiator && PipeOk(v.p.value))
      && Together(EndOf(v.o.value), EndOfOption(v.p), v.toP, v.toO)
      && Prefixes(EndOf(v.o.value), EndOfOption(v.p))
      && Complete(EndOf(v.o.value), EndOfOption(v.p))
  }

  // ------------------------------------------------------------ the initiator's end acts

  function Post(q: seq<Body>, b: Option<Body>): seq<Body>
  {
    if b.Some? then q + [b.value] else q
  }

  lemma OpenKeeps(v: View)
    requires PairInv(v) && v.o == None
    ensures PairInv(v.(o := Some(NewPipe(true))))
  {
  }

  lemma OpenedSends(o: End, p: Option<End>, toP: seq<Body>, toO: seq<Body>, d: Bytes)
    requires WhenOpened(o, p, toP, toO)
    ensures WhenOpened(o.(sent := o.sent + [d]), p, toP + [Data(d)], toO)
  {
    LastSnoc(o.sent, |toP|, d);
    DataSnoc(Last(o.sent, |toP|), d);
  }

  lemma TogetherCloses(o: End, p: Option<End>, toP: seq<Body>, toO: seq<Body>)
    requires Together(o, p, toP, toO) && o.state in {Fresh, OpenRequestSent, Opened} && (o.state != Opened ==> o.sent == [])
    requires Prefixes(o, p)
    ensures Together(o.(state := Closed, registered := false), p, toP + [Close], toO)
  {
    assert (toP + [Close])[..|toP|] == toP && EndsInClose(toP + [Close]);
    if p.Some? {
      assert InFlight(o.sent, p.value, toP);
    }
  }

  lemma OUsesOpened(v: View, o: Pipe, op: Op, q: Pipe)
    requires PairInv(v) && v.o == Some(o) && Allowed(o, op) && q == Apply(o, op) && o.state == Opened
    ensures PairInv(v.(o := Some(q), toP := Post(v.toP, Emits(o, op))))
  {
    ApplyKeepsOk(o, op, q);
    if op.SendData? {
      OpenedSends(EndOf(o), EndOfOption(v.p), v.toP, v.toO, op.data);
    } else if q.state == Closed {
      TogetherCloses(EndOf(o), EndOfOption(v.p), v.toP, v.toO);
    }
  }

  lemma OClosesUnopened(v: View, o: Pipe, q: Pipe)
    requires PairInv(v) && v.o == Some(o) && o.state in {Fresh, OpenRequestSent} && PipeOk(q)
    requires q == ClosingHere(o).(owned := q.owned) && Got(q.log) == Got(o.log)
    ensures PairInv(v.(o := Some(q), toP := v.toP + [Close]))
  {
    TogetherCloses(EndOf(o), EndOfOption(v.p), v.toP, v.toO);
  }

  lemma OStarts(v: View, o: Pipe, b: Body)
    requires PairInv(v) && v.o == Some(o) && o.state == Fresh && o.owned && b.Req?
    ensures PairInv(v.(o := Some(o.(state := OpenRequestSent)), toP := v.toP + [b]))
  {
  }

  lemma OIdles(v: View, o: Pipe, q: Pipe)
    requires PairInv(v) && v.o == Some(o) && PipeOk(q) && q == o.(registered := q.registered, owned := q.owned)
    ensures PairInv(v.(o := Some(q)))
  {
    assert EndOf(q) == EndOf(o).(registered := q.registered);
  }

  lemma OUsesUnopened(v: View, o: Pipe, op: Op)
    requires PairInv(v) && v.o == Some(o) && Allowed(o, op) && o.state != Opened
    ensures PairInv(v.(o := Some(Apply(o, op)), toP := Post(v.toP, Emits(o, op))))
  {
    var q := Apply(o, op);
    if Emits(o, op) == None {
      ApplyKeepsOk(o, op, q);
      OIdles(v, o, q);
    } else if op.Start? || op.StartClient? {
      OStarts(v, o, Emits(o, op).value);
    } else {
      ApplyKeepsOk(o, op, q);
      OClosesUnopened(v, o, q);
    }
  }

  /** Anything the user of the initiator's end, or its expiry timer, does. */
  lemma OUses(v: View, o: Pipe, op: Op)
    requires PairInv(v) && v.o == Some(o) && Allowed(o, op)
    ensures PairInv(v.(o := Some(Apply(o, op)), toP := Post(v.toP, Emits(o, op))))
  {
    if o.state == Opened {
      OUsesOpened(v, o, op, Apply(o, op));
    } else {
      OUsesUnopened(v, o, op);
    }
  }

  // ------------------------------------------------------------ the acceptor's end acts

  lemma TogetherPSends(o: End, p: End, toP: seq<Body>, toO: seq<Body>, d: Bytes)
    requires Together(o, Some(p), toP, toO) && p.state == Opened
    ensures Together(o, Some(p.(sent := p.sent + [d])), toP, toO + [Data(d)])
  {
    DataSnoc(p.sent, d);
    if o.state == Opened {
      assert (p.sent + [d])[|o.got|..] == p.sent[|o.got|..] + [d];
      DataSnoc(p.sent[|o.got|..], d);
    }
  }

  lemma TogetherPAccepts(o: End, p: End, toP: seq<Body>, toO: seq<Body>)
    requires Together(o, Some(p), toP, toO) && p.state == OpenRequestRecv && p.registered && p.sent == [] && p.got == []
    ensures Together(o, Some(p.(state := Opened)), toP, toO + [Resp])
  {
    assert [Resp] + DataAll(p.sent) == [Resp];
  }

  lemma TogetherPCloses(o: End, p: End, toP: seq<Body>, toO: seq<Body>)
    requires Together(o, Some(p), toP, toO) && p.state in {OpenRequestRecv, Opened}
    requires p.state == OpenRequestRecv ==> p.sent == []
    ensures Together(o, Some(p.(state := Closed, registered := false)), toP, toO + [Close])
  {
  }

  lemma PSends(v: View, p: Pipe, d: Bytes, q: Pipe)
    requires PairInv(v) && v.p == Some(p) && p.state == Opened && q == p.(sent := p.sent + [d]) && PipeOk(q)
    ensures PairInv(v.(p := Some(q), toO := v.toO + [Data(d)]))
  {
    TogetherPSends(EndOf(v.o.value), EndOf(p), v.toP, v.toO, d);
  }

  lemma PClosesHere(v: View, p: Pipe, q: Pipe)
    requires PairInv(v) && v.p == Some(p) && p.state in {OpenRequestRecv, Opened} && PipeOk(q)
    requires q == ClosingHere(p).(owned := q.owned) && Got(q.log) == Got(p.log)
    ensures PairInv(v.(p := Some(q), toO := v.toO + [Close]))
  {
    TogetherPCloses(EndOf(v.o.value), EndOf(p), v.toP, v.toO);
  }

  lemma PUsesOpened(v: View, p: Pipe, op: Op, q: Pipe)
    requires PairInv(v) && v.p == Some(p) && Allowed(p, op) && q == Apply(p, op) && p.state == Opened
    ensures PairInv(v.(p := Some(q), toO := Post(v.toO, Emits(p, op))))
  {
    ApplyKeepsOk(p, op, q);
    if op.SendData? {
      PSends(v, p, op.data, q);
    } else if q.state == Closed {
      PClosesHere(v, p, q);
    }
  }

  lemma PAccepts(v: View, p: Pipe, q: Pipe)
    requires PairInv(v) && v.p == Some(p) && p.state == OpenRequestRecv && p.owned && q == Apply(p, Start)
    ensures PairInv(v.(p := Some(q), toO := v.toO + [Resp]))
  {
    StartKeepsOk(p, q);
    TogetherPAccepts(EndOf(v.o.value), EndOf(p), v.toP, v.toO);
  }

  lemma PIdles(v: View, p: Pipe, q: Pipe)
    requires PairInv(v) && v.p == Some(p) && PipeOk(q)
    requires q == p.(registered := q.registered, owned := q.owned) && (q.registered ==> p.registered)
    requires p.state != Opened
    ensures PairInv(v.(p := Some(q)))
  {
    assert EndOf(q) == EndOf(p).(registered := q.registered);
  }

  lemma PUsesWaiting(v: View, p: Pipe, op: Op)
    requires PairInv(v) && v.p == Some(p) && Allowed(p, op) && p.state != Opened
    ensures PairInv(v.(p := Some(Apply(p, op)), toO := Post(v.toO, Emits(p, op))))
  {
    var q := Apply(p, op);
    if Emits(p, op) == None {
      ApplyKeepsOk(p, op, q);
      PIdles(v, p, q);
    } else if op.Start? {
      PAccepts(v, p, q);
    } else {
      ApplyKeepsOk(p, op, q);
      PClosesHere(v, p, q);
    }
  }

  lemma PUses(v: View, p: Pipe, op: Op)
    requires PairInv(v) && v.p == Some(p) && Allowed(p, op)
    ensures PairInv(v.(p := Some(Apply(p, op)), toO := Post(v.toO, Emits(p, op))))
  {
    if p.state == Opened {
      PUsesOpened(v, p, op, Apply(p, op));
    } else {
      PUsesWaiting(v, p, op);
    }
  }

  // ------------------------------------------------------------ the initiator's end reads

  lemma DataTail(ds: seq<Bytes>, tail: seq<Body>)
    requires ds != []
    ensures (DataAll(ds) + tail)[0] == Data(ds[0]) && (DataAll(ds) + tail)[1..] == DataAll(ds[1..]) + tail
  {
    assert DataAll(ds)[1..] == DataAll(ds[1..]);
    assert (DataAll(ds) + tail)[1..] == DataAll(ds)[1..] + tail;
  }

  lemma SentHears(p: Option<End>, toP: seq<Body>, toO: seq<Body>, o: End)
    requires WhenSent(p, toP, toO) && toO != [] && o.sent == o.got == [] && p.Some? && p.value.got == []
    requires p.value.state in {OpenRequestRecv, Opened, Closed}
    requires o.state == if toO[0] == Resp then Opened else Closed
    ensures Together(o, p, toP, toO[1..]) && (toO[0] == Resp || toO[0] == Close)
  {
    assert p.value.sent[0..] == p.value.sent;
    if toO[0] == Resp {
      assert toO[1..] == DataAll(p.value.sent) + Tail(p.value);
    }
  }

  lemma OpenedHearsData(o: End, p: End, toP: seq<Body>, toO: seq<Body>)
    requires WhenOpened(o, Some(p), toP, toO) && |o.got| < |p.sent|
    ensures toO[0] == Data(p.sent[|o.got|])
    ensures WhenOpened(o.(got := o.got + [p.sent[|o.got|]]), Some(p), toP, toO[1..])
  {
    DataTail(p.sent[|o.got|..], Tail(p));
    assert p.sent[|o.got|..][1..] == p.sent[|o.got| + 1..];
  }

  lemma OpenedHearsClose(o: End, p: End, toP: seq<Body>, toO: seq<Body>)
    requires WhenOpened(o, Some(p), toP, toO) && |o.got| == |p.sent| && toO != []
    ensures toO == [Close] && WhenClosed(o.sent, Some(p), toP, [])
  {
  }

  lemma OHearsWhenOpened(v: View, o: Pipe, q: Pipe)
    requires PairInv(v) && v.toO != [] && v.o == Some(o) && o.state == Opened && q == Hears(o, v.toO[0])
    ensures PairInv(v.(o := Some(q), toO := v.toO[1..]))
  {
    HearsKeepsOk(o, v.toO[0], q);
    var e, p := EndOf(o), EndOf(v.p.value);
    if |e.got| < |p.sent| {
      OpenedHearsData(e, p, v.toP, v.toO);
    } else {
      OpenedHearsClose(e, p, v.toP, v.toO);
    }
  }

  lemma OHearsWhenSent(v: View, o: Pipe, q: Pipe)
    requires PairInv(v) && v.toO != [] && v.o == Some(o) && o.state == OpenRequestSent && q == Hears(o, v.toO[0])
    ensures PairInv(v.(o := Some(q), toO := v.toO[1..]))
  {
    HearsKeepsOk(o, v.toO[0], q);
    SentHears(EndOfOption(v.p), v.toP, v.toO, EndOf(o).(state := if v.toO[0] == Resp then Opened else Closed, registered := q.registered));
  }

  /** A closed initiator pays no attention. */
  lemma OIgnores(v: View, o: Pipe)
    requires PairInv(v) && v.toO != [] && v.o == Some(o) && o.state !in {OpenRequestSent, Opened}
    ensures Receive(v.o, true, v.toO[0]) == v.o && PairInv(v.(toO := v.toO[1..]))
  {
    assert o.state == Closed;
  }

  /** The initiator reads the next packet of the acceptor. */
  lemma OHears(v: View)
    requires PairInv(v) && v.toO != []
    ensures PairInv(v.(o := Receive(v.o, true, v.toO[0]), toO := v.toO[1..]))
  {
    var o := v.o.value;
    match o.state
    case OpenRequestSent => OHearsWhenSent(v, o, Hears(o, v.toO[0]));
    case Opened => OHearsWhenOpened(v, o, Hears(o, v.toO[0]));
    case _ => OIgnores(v, o);
  }

  // ------------------------------------------------------------ the acceptor's end reads

  /** The acceptor reads a request, or a close before any. */
  lemma PMeets(v: View)
    requires PairInv(v) && v.toP != [] && v.p == None
    ensures PairInv(v.(p := Receive(v.p, false, v.toP[0]), toP := v.toP[1..]))
  {
  }

  lemma DataFirst(sent: seq<Bytes>, p: End, q: seq<Body>)
    requires InFlight(sent, p, q)
    ensures q == [] || q[0].Data?
  {
  }

  /** A close that arrives is the last of its initiator's packets. */
  lemma CloseIsLast(o: End, p: End, toP: seq<Body>, toO: seq<Body>)
    requires Together(o, Some(p), toP, toO) && toP != []
    ensures toP[0] == Close ==> toP == [Close] && o.state !in {Fresh, OpenRequestSent, Opened}
  {
    if o.state == Opened {
      DataFirst(o.sent, p, toP);
    } else if EndsInClose(toP) {
      DataFirst(o.sent, p, toP[..|toP| - 1]);
      assert |toP| > 1 ==> toP[..|toP| - 1][0] == toP[0];
    } else {
      DataFirst(o.sent, p, toP);
    }
  }

  lemma TogetherHearsClose(o: End, p: End, q: End, toP: seq<Body>, toO: seq<Body>)
    requires Together(o, Some(p), toP, toO) && toP != [] && toP[0] == Close
    requires q == if p.registered then p.(state := Closed, registered := false) else p
    requires p.state in {OpenRequestRecv, Opened, Closed} && (p.state == Opened ==> p.registered)
    ensures Together(o, Some(q), toP[1..], toO)
  {
    CloseIsLast(o, p, toP, toO);
  }

  /** An acceptor that reads a close has been given everything. */
  lemma HeardAll(o: End, p: End, toP: seq<Body>, toO: seq<Body>)
    requires Together(o, Some(p), toP, toO) && Prefixes(o, Some(p)) && toP != [] && toP[0] == Close
    requires o.state in {Fresh, OpenRequestSent, Opened, Closed}
    requires p.state == Opened || (p.state == OpenRequestRecv && p.got == [])
    ensures toP == [Close] && o.state == Closed && p.got == o.sent
  {
    CloseIsLast(o, p, toP, toO);
  }

  lemma PCloses(v: View, p: Pipe, q: Pipe)
    requires PairInv(v) && v.p == Some(p) && p.registered && v.toP != [] && v.toP[0] == Close && q == Closing(p)
    ensures PairInv(v.(p := Some(q), toP := v.toP[1..]))
  {
    ClosingKeepsOk(p, p.owned, p.closedHere, q);
    var o := EndOf(v.o.value);
    HeardAll(o, EndOf(p), v.toP, v.toO);
    TogetherHearsClose(o, EndOf(p), EndOf(p).(state := Closed, registered := false), v.toP, v.toO);
    assert EndOf(q) == EndOf(p).(state := Closed, registered := false);
  }

  lemma PIgnoresClose(v: View, p: Pipe)
    requires PairInv(v) && v.p == Some(p) && !p.registered && v.toP != [] && v.toP[0] == Close
    ensures PairInv(v.(toP := v.toP[1..]))
  {
    TogetherHearsClose(EndOf(v.o.value), EndOf(p), EndOf(p), v.toP, v.toO);
  }

  lemma InFlightHead(sent: seq<Bytes>, p: End, q: End, toP: seq<Body>)
    requires InFlight(sent, p, toP) && toP != [] && q.state == p.state
    requires p.state == Opened ==> |q.got| == |p.got| + 1
    ensures toP[0] == Data(sent[|sent| - |toP|]) && InFlight(sent, q, toP[1..])
  {
    var ds := |toP|;
    LastHead(sent, ds);
    DataTail(Last(sent, ds), []);
    assert toP + [] == toP && DataAll(Last(sent, ds - 1)) + [] == DataAll(Last(sent, ds - 1));
  }

  lemma OpenedSaysData(o: End, p: End, q: End, toP: seq<Body>, toO: seq<Body>)
    requires WhenOpened(o, Some(p), toP, toO) && toP != []
    requires q == p.(got := q.got) && (p.state == Opened ==> |q.got| == |p.got| + 1)
    ensures WhenOpened(o, Some(q), toP[1..], toO) && toP[0] == Data(o.sent[|o.sent| - |toP|])
  {
    InFlightHead(o.sent, p, q, toP);
  }

  lemma ClosedSaidData(sent: seq<Bytes>, p: End, q: End, toP: seq<Body>, toO: seq<Body>)
    requires WhenClosed(sent, Some(p), toP, toO) && toP != [] && toP[0].Data? && EndsInClose(toP)
    requires q == p.(got := q.got) && (p.state == Opened ==> |q.got| == |p.got| + 1)
    ensures WhenClosed(sent, Some(q), toP[1..], toO) && |toP| - 1 <= |sent| && toP[0] == Data(sent[|sent| - (|toP| - 1)])
    ensures p.state == Opened ==> |p.got| == |sent| - (|toP| - 1)
  {
    var n := |toP|;
    InFlightHead(sent, p, q, toP[..n - 1]);
    assert toP[1..][..n - 2] == toP[..n - 1][1..];
    assert toP[1..][n - 2] == Close;
  }

  lemma ClosedFirstSaidData(sent: seq<Bytes>, p: End, toP: seq<Body>, toO: seq<Body>)
    requires WhenClosed(sent, Some(p), toP, toO) && toP != [] && toP[0].Data? && !EndsInClose(toP)
    ensures p.state != Opened && WhenClosed(sent, Some(p), toP[1..], toO)
  {
    InFlightHead(sent, p, p, toP);
    assert |toP| > 1 ==> toP[1..][|toP| - 2] == toP[|toP| - 1];
  }

  /** What the acceptor makes of data, for the pair. */
  lemma TogetherHearsData(o: End, p: End, q: End, toP: seq<Body>, toO: seq<Body>)
    requires Together(o, Some(p), toP, toO) && Prefixes(o, Some(p)) && toP != [] && toP[0].Data?
    requires q == if p.state == Opened then p.(got := p.got + [toP[0].data]) else p
    ensures Together(o, Some(q), toP[1..], toO) && Prefixes(o, Some(q))
  {
    if o.state == Opened {
      OpenedSaysData(o, p, q, toP, toO);
    } else if EndsInClose(toP) {
      ClosedSaidData(o.sent, p, q, toP, toO);
    } else {
      ClosedFirstSaidData(o.sent, p, toP, toO);
    }
  }

  lemma PHearsData(v: View, p: Pipe, q: Pipe)
    requires PairInv(v) && v.p == Some(p) && v.toP != [] && v.toP[0].Data?
    requires q == if p.registered then Hears(p, v.toP[0]) else p
    ensures PairInv(v.(p := Some(q), toP := v.toP[1..]))
  {
    if p.registered {
      HearsKeepsOk(p, v.toP[0], q);
    }
    TogetherHearsData(EndOf(v.o.value), EndOf(p), EndOf(q), v.toP, v.toO);
  }

  /** While the acceptor's end exists, only data and a close reach it. */
  lemma PGetsDataOrClose(o: End, p: End, toP: seq<Body>, toO: seq<Body>)
    requires Together(o, Some(p), toP, toO) && toP != []
    ensures toP[0] == Close || toP[0].Data?
  {
    if o.state == Opened || (o.state !in {Fresh, OpenRequestSent} && !EndsInClose(toP)) {
      DataFirst(o.sent, p, toP);
    } else if o.state !in {Fresh, OpenRequestSent} {
      DataFirst(o.sent, p, toP[..|toP| - 1]);
      assert |toP| > 1 ==> toP[..|toP| - 1][0] == toP[0];
    }
  }

  lemma PHearsKnown(v: View, p: Pipe)
    requires PairInv(v) && v.toP != [] && v.p == Some(p) && (v.toP[0] == Close || v.toP[0].Data?)
    ensures PairInv(v.(p := Receive(v.p, false, v.toP[0]), toP := v.toP[1..]))
  {
    if v.toP[0].Data? {
      PHearsData(v, p, if p.registered then Hears(p, v.toP[0]) else p);
    } else if p.registered {
      PCloses(v, p, Closing(p));
    } else {
      PIgnoresClose(v, p);
    }
  }

  lemma PHears(v: View)
    requires PairInv(v) && v.toP != []
    ensures PairInv(v.(p := Receive(v.p, false, v.toP[0]), toP := v.toP[1..]))
  {
    if v.p == None {
      PMeets(v);
    } else {
      PGetsDataOrClose(EndOf(v.o.value), EndOf(v.p.value), v.toP, v.toO);
      PHearsKnown(v, v.p.value);
    }
  }
}
