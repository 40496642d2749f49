/** The login registry of the C2 server: which endpoint a fingerprint leads to, across logins, ejections and
    closes that come late. */
module C2Registry {
  import opened Common

  /** Endpoints are numbered in the order they are started. `lookup` is `_connection_lookup`, `connections` is
      `_connections`, `selfLu` the endpoints' `_self_lu` (absent until login); `closing` holds the endpoints whose
      transport was asked to close. `latest`, `loggedIn` and `closed` are history. */
  datatype Registry = Registry(
    count: nat,
    connections: set<nat>,
    lookup: map<Bytes, nat>,
    selfLu: map<nat, Bytes>,
    latest: map<Bytes, nat>,
    loggedIn: set<nat>,
    closing: set<nat>,
    closed: set<nat>)

  datatype Step = Start | OnOpen(id: nat, fingerprint: Option<Bytes>) | OnClose(id: nat)

  const INITIAL := Registry(0, {}, map[], map[], map[], {}, {}, {})

  /** The transport of an endpoint opens once, closes once, and does not open after closing. */
  predicate Enabled(r: Registry, step: Step)
  {
    match step
    case Start => true
    case OnOpen(id, _) => id < r.count && id !in r.loggedIn && id !in r.closed
    case OnClose(id) => id < r.count && id !in r.closed
  }

  /** An anonymous peer is registered all the same, under the empty fingerprint. */
  function Registered(fingerprint: Option<Bytes>): Bytes
  {
    if fingerprint.Some? then fingerprint.value else []
  }

  /** A previous login with the fingerprint loses its back pointer and its entry, and is asked to close; so is an
      anonymous peer. */
  function AfterOpen(r: Registry, id: nat, fingerprint: Option<Bytes>): Registry
  {
    var fp := Registered(fingerprint);
    var ejected := if fp in r.lookup then {r.lookup[fp]} else {};
    var anonymous := if fingerprint == None then {id} else {};
    r.(lookup := r.lookup[fp := id], selfLu := (r.selfLu - ejected)[id := fp], latest := r.latest[fp := id],
       loggedIn := r.loggedIn + {id}, closing := r.closing + ejected + anonymous)
  }

  function AfterClose(r: Registry, id: nat): Registry
  {
    r.(lookup := if id in r.selfLu then r.lookup - {r.selfLu[id]} else r.lookup,
       connections := r.connections - {id}, closed := r.closed + {id})
  }

  function Next(r: Registry, step: Step): Registry
    requires Enabled(r, step)
  {
    match step
    case Start => r.(count := r.count + 1, connections := r.connections + {r.count})
    case OnOpen(id, fp) => AfterOpen(r, id, fp)
    case OnClose(id) => AfterClose(r, id)
  }

  /** Back pointers and entries match, until an endpoint has closed. */
  ghost predicate Inv(r: Registry)
  {
    && (forall x :: x in r.connections <==> 0 <= x < r.count && x !in r.closed)
    && (forall fp :: fp in r.lookup ==> r.lookup[fp] in r.selfLu && r.selfLu[r.lookup[fp]] == fp && r.lookup[fp] !in r.closed)
    && (forall x :: x in r.selfLu && x !in r.closed ==> r.selfLu[x] in r.lookup && r.lookup[r.selfLu[x]] == x)
    && (forall x :: x in r.selfLu ==> x in r.loggedIn)
    && (forall x :: x in r.loggedIn ==> x in r.selfLu || x in r.closing)
    && (forall x :: x in r.closing ==> x in r.loggedIn)
    && (forall x :: x in r.loggedIn || x in r.closed ==> x < r.count)
    && (forall fp :: fp in r.lookup <==> fp in r.latest && r.latest[fp] !in r.closed)
    && (forall fp :: fp in r.lookup ==> r.lookup[fp] == r.latest[fp])
    && (forall fp :: fp in r.latest ==> r.latest[fp] in r.loggedIn)
    && (forall fp, gp :: fp in r.latest && gp in r.latest && r.latest[fp] == r.latest[gp] ==> fp == gp)
  }

  ghost predicate Run(r: Registry, steps: seq<Step>)
    decreases |steps|
  {
    steps == [] || (Enabled(r, steps[0]) && Run(Next(r, steps[0]), steps[1..]))
  }

  ghost function Final(r: Registry, steps: seq<Step>): Registry
    requires Run(r, steps)
    decreases |steps|
  {
    if steps == [] then r else Final(Next(r, steps[0]), steps[1..])
  }

  lemma OpenKeepsInv(r: Registry, id: nat, fingerprint: Option<Bytes>)
    requires Inv(r) && Enabled(r, OnOpen(id, fingerprint))
    ensures Inv(AfterOpen(r, id, fingerprint))
  {
  }

  lemma CloseKeepsInv(r: Registry, id: nat)
    requires Inv(r) && Enabled(r, OnClose(id))
    ensures Inv(AfterClose(r, id))
  {
  }

  lemma {:induction false} RunKeepsInv(r: Registry, steps: seq<Step>)
    requires Inv(r) && Run(r, steps)
    ensures Inv(Final(r, steps))
    decreases |steps|
  {
    if steps != [] {
      match steps[0] {
        case Start =>
        case OnOpen(id, fp) => OpenKeepsInv(r, id, fp);
        case OnClose(id) => CloseKeepsInv(r, id);
      }
      RunKeepsInv(Next(r, steps[0]), steps[1..]);
    }
  }

  // ------------------------------------------------------------ by the list of steps

  /** The step is a login with this fingerprint, the empty one for an anonymous peer. */
  predicate IsLogin(step: Step, fp: Bytes)
  {
    step.OnOpen? && (step.fingerprint == Some(fp) || (step.fingerprint == None && fp == []))
  }

  /** The endpoint of the last login with a fingerprint. */
  function LatestLogin(steps: seq<Step>, fp: Bytes): Option<nat>
  {
    if steps == [] then None
    else if IsLogin(steps[|steps| - 1], fp) then Some(steps[|steps| - 1].id)
    else LatestLogin(steps[..|steps| - 1], fp)
  }

  lemma {:induction false} RunSplit(r: Registry, steps: seq<Step>)
    requires Run(r, steps) && steps != []
    ensures var init, last := steps[..|steps| - 1], steps[|steps| - 1];
            && Run(r, init) && Enabled(Final(r, init), last) && Final(r, steps) == Next(Final(r, init), last)
    decreases |steps|
  {
    var init, last := steps[..|steps| - 1], steps[|steps| - 1];
    if |steps| == 1 {
      assert steps == [last] && init == [] && steps[1..] == [];
      assert Run(Next(r, last), []) && Final(Next(r, last), []) == Next(r, last);
    } else {
      RunSplit(Next(r, steps[0]), steps[1..]);
      assert steps[1..][..|steps| - 2] == init[1..];
      assert init[0] == steps[0];
    }
  }

  /** The history is what the steps were. */
  ghost predicate Remembers(r: Registry, steps: seq<Step>, fp: Bytes)
  {
    && LatestLogin(steps, fp) == (if fp in r.latest then Some(r.latest[fp]) else None)
    && (forall id :: id in r.closed <==> OnClose(id) in steps)
    && (forall id, f :: OnOpen(id, f) in steps ==> id in r.loggedIn)
  }

  lemma StepRemembers(r: Registry, steps: seq<Step>, step: Step, fp: Bytes)
    requires Remembers(r, steps, fp) && Enabled(r, step)
    ensures Remembers(Next(r, step), steps + [step], fp)
  {
    assert (steps + [step])[..|steps|] == steps;
    assert forall x :: x in steps + [step] <==> x in steps || x == step;
  }

  lemma {:induction false} RunRemembers(steps: seq<Step>, fp: Bytes)
    requires Run(INITIAL, steps)
    ensures Remembers(Final(INITIAL, steps), steps, fp)
  {
    if steps != [] {
      var init, last := steps[..|steps| - 1], steps[|steps| - 1];
      RunSplit(INITIAL, steps);
      RunRemembers(init, fp);
      StepRemembers(Final(INITIAL, init), init, last, fp);
      assert init + [last] == steps;
    }
  }

  /** In every run a fingerprint leads to the endpoint that logged in with it last, and to nothing exactly if that
      one has closed: no late close of an ejected endpoint removes the newer login. */
  lemma LatestLoginStays(steps: seq<Step>, fp: Bytes)
    requires Run(INITIAL, steps)
    ensures var r, login := Final(INITIAL, steps), LatestLogin(steps, fp);
            && (fp in r.lookup <==> login.Some? && OnClose(login.value) !in steps)
            && (fp in r.lookup ==> r.lookup[fp] == login.value && r.lookup[fp] in r.connections)
  {
    RunKeepsInv(INITIAL, steps);
    RunRemembers(steps, fp);
  }

  function Started(steps: seq<Step>): nat
  {
    if steps == [] then 0 else Started(steps[..|steps| - 1]) + (if steps[|steps| - 1].Start? then 1 else 0)
  }

  lemma {:induction false} CountIsStarted(steps: seq<Step>)
    requires Run(INITIAL, steps)
    ensures Final(INITIAL, steps).count == Started(steps)
  {
    if steps != [] {
      RunSplit(INITIAL, steps);
      CountIsStarted(steps[..|steps| - 1]);
    }
  }

  /** The connections are the endpoints started and not closed. */
  lemma ConnectionsAreOpen(steps: seq<Step>, id: nat)
    requires Run(INITIAL, steps)
    ensures id in Final(INITIAL, steps).connections <==> id < Started(steps) && OnClose(id) !in steps
  {
    RunKeepsInv(INITIAL, steps);
    RunRemembers(steps, []);
    CountIsStarted(steps);
  }

  /** And every endpoint that logged in and has not closed, but is the last to have logged in with no fingerprint, has
      been asked to close. */
  lemma OthersAskedToClose(steps: seq<Step>, id: nat, fingerprint: Option<Bytes>)
    requires Run(INITIAL, steps) && OnOpen(id, fingerprint) in steps && OnClose(id) !in steps
    ensures id in Final(INITIAL, steps).closing || exists fp :: LatestLogin(steps, fp) == Some(id)
  {
    RunKeepsInv(INITIAL, steps);
    RunRemembers(steps, []);
    var r := Final(INITIAL, steps);
    assert id in r.loggedIn && id !in r.closed;
    if id !in r.closing {
      var fp := r.selfLu[id];
      RunRemembers(steps, fp);
      assert fp in r.lookup && r.lookup[fp] == id;
      assert LatestLogin(steps, fp) == Some(id);
    }
  }

  /** So has every anonymous peer. */
  lemma {:induction false} AnonymousAskedToClose(steps: seq<Step>, id: nat)
    requires Run(INITIAL, steps) && OnOpen(id, None) in steps
    ensures id in Final(INITIAL, steps).closing
  {
    var init, last := steps[..|steps| - 1], steps[|steps| - 1];
    RunSplit(INITIAL, steps);
    assert init + [last] == steps;
    if OnOpen(id, None) in init {
      AnonymousAskedToClose(init, id);
    } else {
      assert last == OnOpen(id, None);
    }
  }

  /** Only an anonymous peer, or one whose fingerprint has logged in again, is ever asked to close. */
  lemma {:induction false} OnlyOthersAskedToClose(steps: seq<Step>, id: nat)
    requires Run(INITIAL, steps) && id in Final(INITIAL, steps).closing
    ensures OnOpen(id, None) in steps || forall fp :: LatestLogin(steps, fp) != Some(id)
  {
    RunKeepsInv(INITIAL, steps);
    var init, last := steps[..|steps| - 1], steps[|steps| - 1];
    RunSplit(INITIAL, steps);
    RunKeepsInv(INITIAL, init);
    var r := Final(INITIAL, init);
    assert init + [last] == steps;
    assert forall x :: x in init ==> x in steps;
    assert last in steps;
    if id in r.closing {
      OnlyOthersAskedToClose(init, id);
      if OnOpen(id, None) !in init {
        AskedStayOut(init, last, id);
      }
    } else {
      assert last == OnOpen(id, None)
             || (last.OnOpen? && Registered(last.fingerprint) in r.lookup && r.lookup[Registered(last.fingerprint)] == id);
      if last != OnOpen(id, None) {
        EjectedIsOut(init, last, id);
      }
    }
  }

  /** Who was last for no fingerprint, and has logged in, is so ever after. */
  lemma AskedStayOut(steps: seq<Step>, step: Step, id: nat)
    requires Run(INITIAL, steps) && Enabled(Final(INITIAL, steps), step) && id in Final(INITIAL, steps).closing
    requires forall fp :: LatestLogin(steps, fp) != Some(id)
    requires id in Final(INITIAL, steps).loggedIn
    ensures forall fp :: LatestLogin(steps + [step], fp) != Some(id)
  {
    assert (steps + [step])[..|steps|] == steps;
  }

  lemma EjectedIsOut(steps: seq<Step>, step: Step, id: nat)
    requires Run(INITIAL, steps) && Enabled(Final(INITIAL, steps), step) && step.OnOpen? && step.id != id
    requires var r := Final(INITIAL, steps);
             Registered(step.fingerprint) in r.lookup && r.lookup[Registered(step.fingerprint)] == id
    ensures forall fp :: LatestLogin(steps + [step], fp) != Some(id)
  {
    RunKeepsInv(INITIAL, steps);
    assert (steps + [step])[..|steps|] == steps;
    forall fp ensures LatestLogin(steps + [step], fp) != Some(id) {
      RunRemembers(steps, fp);
      RunRemembers(steps, Registered(step.fingerprint));
    }
  }

  // ------------------------------------------------------------ as objects

  class C2Server {
    var connections: set<C2ServerEndpoint>
    var lookup: map<Bytes, C2ServerEndpoint>
    ghost var all: seq<C2ServerEndpoint>

    constructor ()
      ensures connections == {} && lookup == map[] && all == []
    {
      connections, lookup, all := {}, map[], [];
    }
  }

  class C2ServerEndpoint {
    const server: C2Server
    /** `_self_lu`, as the key of the entry it points at. */
    var selfLu: Option<Bytes>
    /** The transport was asked to close. */
    var closing: bool

    constructor (server: C2Server)
      ensures this.server == server && selfLu == None && !closing
    {
      this.server, selfLu, closing := server, None, false;
    }

    /** `start`: only the registration. */
    method Start()
      modifies server
      ensures server.connections == old(server.connections) + {this} && server.lookup == old(server.lookup)
      ensures server.all == old(server.all) + [this]
    {
      server.connections := server.connections + {this};
      server.all := server.all + [this];
    }

    /** Entries point at endpoints that point back. */
    ghost predicate Matched()
      reads server, server.lookup.Values
    {
      forall fp :: fp in server.lookup ==> server.lookup[fp].selfLu == Some(fp)
    }

    method OnOpen(identity: Option<Bytes>)
      requires Matched() && selfLu == None && this !in server.lookup.Values
      modifies this, server, server.lookup.Values
      ensures var fp := Registered(identity);
              Matched() && server.lookup == old(server.lookup)[fp := this] && selfLu == Some(fp)
      ensures closing == (old(closing) || identity == None)
      ensures var fp := Registered(identity);
              fp in old(server.lookup) ==> old(server.lookup)[fp].selfLu == None && old(server.lookup)[fp].closing
      ensures server.connections == old(server.connections)
      ensures forall fp :: fp in old(server.lookup) && fp != Registered(identity) ==>
                server.lookup[fp].selfLu == Some(fp) && server.lookup[fp].closing == old(server.lookup[fp].closing)
    {
      if identity == None {
        closing := true;
      }
      var fingerprint := Registered(identity);
      if fingerprint in server.lookup {
        server.lookup[fingerprint].selfLu := None;
        server.lookup[fingerprint].closing := true;
        server.lookup := server.lookup - {fingerprint};
      }
      server.lookup := server.lookup[fingerprint := this];
      selfLu := Some(fingerprint);
    }

    method OnClose()
      requires Matched() && (selfLu.Some? ==> selfLu.value in server.lookup && server.lookup[selfLu.value] == this)
      modifies server
      ensures Matched() && server.connections == old(server.connections) - {this}
      ensures server.lookup == if selfLu.Some? then old(server.lookup) - {selfLu.value} else old(server.lookup)
    {
      if selfLu.Some? {
        server.lookup := server.lookup - {selfLu.value};
      }
      server.connections := server.connections - {this};
    }
  }

  /** The three operations with an endpoint ejected in between: it is asked to close, and its own close, coming
      late, leaves the newer login alone. */
  method EjectThenClose(older: C2ServerEndpoint, newer: C2ServerEndpoint, identity: Option<Bytes>)
    requires older != newer && older.server == newer.server
    requires older.Matched() && older.selfLu == newer.selfLu == None
    requires older !in older.server.lookup.Values && newer !in older.server.lookup.Values
    modifies older, newer, older.server, older.server.lookup.Values
    ensures var fp := Registered(identity); fp in newer.server.lookup && newer.server.lookup[fp] == newer
    ensures older.closing && newer.server.connections == old(newer.server.connections) - {older}
  {
    older.OnOpen(identity);
    newer.OnOpen(identity);
    older.OnClose();
  }
}
