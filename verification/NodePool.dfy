/**
 The host's live node pool (class `NodePool` in `src/host/host.ts`) as the steps between
 its awaits: a spawn reserves synchronously, composes over an await and then registers
 or gives its place back, while nodes depart, end and the host stops.
 */
module NodePools {
  import opened Wrappers
  import opened Decimals
  import opened Finite

  /** A node name: `node-<n>` as the pool writes it, one with `more + 1` leading zeros, or any other. */
  datatype Uid = Minted(n: nat) | Padded(n: nat, more: nat) | Named(id: nat)

  datatype Node = Node(canSpawn: bool, booted: bool, stopped: bool)

  /** A spawn between its reservation and its `finally`; `discarding` once it closes its cell. */
  datatype Flight = Flight(uid: Uid, requester: Uid, canSpawn: bool, discarding: bool)

  /** A drain that settled: how, and how many nodes and spawns there were. */
  datatype Settlement = Settlement(rejected: bool, live: nat, spawning: nat)

  datatype Pool = Pool(
    max: nat, nodes: map<Uid, Node>, order: seq<Uid>, reservations: set<Uid>, departures: set<Uid>,
    closing: bool, fault: bool, waiting: bool, flights: seq<Flight>, settled: seq<Settlement>, stops: seq<Uid>)

  datatype Reply =
    | Reserved(uid: Uid) | Stopping | NotLive | NotGranted | UnknownModel | Full | Unminted | Unsendable

  /** What a spawn brings: the grant it asks for, and what foreign checks say of it. */
  datatype Request = Request(
    requester: Uid, spawn: bool, modelKnown: bool, sendable: bool, disk: Option<set<Uid>>)

  // --- minting ---------------------------------------------------------------------------------

  /** The number of a minted name; an unsafe one is not counted. */
  function NumberOf(uid: Uid): Option<nat> {
    if uid.Named? || uid.n > MAX_SAFE_INTEGER then None else Some(uid.n)
  }

  function Numbers(names: set<Uid>): set<nat> {
    set u | u in names && NumberOf(u).Some? :: NumberOf(u).value
  }

  ghost function Highest(s: set<nat>): (m: nat)
    ensures forall x :: x in s ==> x <= m
    ensures if s == {} then m == 0 else m in s
  {
    if s == {} then 0
    else
      var x :| x in s;
      var rest := Highest(s - {x});
      assert forall y :: y in s ==> y == x || y in s - {x};
      if s - {x} == {} || x > rest then x else rest
  }

  function Names(p: Pool, disk: set<Uid>): set<Uid> {
    p.nodes.Keys + p.reservations + disk
  }

  ghost function Mint(p: Pool, disk: set<Uid>): Uid {
    Minted(Highest(Numbers(Names(p, disk))) + 1)
  }

  // --- the steps --------------------------------------------------------------------------------

  /** The synchronous part of `spawn`, from its first check to the composition it awaits. */
  ghost function Reserve(p: Pool, r: Request): (Reply, Pool) {
    if p.closing then (Stopping, p)
    else if r.requester !in p.nodes then (NotLive, p)
    else if !p.nodes[r.requester].canSpawn then (NotGranted, p)
    else if !r.modelKnown then (UnknownModel, p)
    else if |p.nodes| + |p.reservations| >= p.max then (Full, p)
    else if r.disk.None? then (Unminted, p)
    else
      var uid := Mint(p, r.disk.value);
      if !r.sendable then (Unsendable, p.(reservations := p.reservations + {uid} - {uid}))
      else (Reserved(uid), p.(reservations := p.reservations + {uid},
                              flights := p.flights + [Flight(uid, r.requester, r.spawn, false)]))
  }

  function Without(flights: seq<Flight>, i: nat): seq<Flight>
    requires i < |flights|
  {
    flights[..i] + flights[i + 1..]
  }

  /** The shared `finally`: the reservation is given back, whatever happened. */
  function Released(p: Pool, i: nat): Pool
    requires i < |p.flights|
  {
    p.(reservations := p.reservations - {p.flights[i].uid}, flights := Without(p.flights, i))
  }

  /** The composition settled: register, or give the place back, or close the fresh cell first. */
  function Composed(p: Pool, i: nat, ok: bool): Pool
    requires i < |p.flights|
  {
    var f := p.flights[i];
    if !ok then Released(p, i)
    else if p.closing then p.(flights := p.flights[i := f.(discarding := true)])
    else Released(p.(nodes := p.nodes[f.uid := Node(f.canSpawn, false, false)], order := p.order + [f.uid]), i)
  }

  /** `beginDepart`: the check and the mark, with nothing between them. */
  function BeginDepart(p: Pool, uid: Uid): (bool, Pool) {
    if uid !in p.nodes then (false, p)
    else if uid in p.departures then (true, p)
    else if |p.nodes| - |p.departures| <= 1 then (false, p)
    else (true, p.(departures := p.departures + {uid}))
  }

  function Stopped(p: Pool, uid: Uid): Pool {
    if uid !in p.nodes then p
    else p.(nodes := p.nodes[uid := p.nodes[uid].(stopped := true)], stops := p.stops + [uid])
  }

  /** The shutdown walk: backwards over the order. */
  function StopEach(p: Pool, order: seq<Uid>): Pool
    decreases |order|
  {
    if order == [] then p
    else StopEach(Stopped(p, order[|order| - 1]), order[..|order| - 1])
  }

  function StopAll(p: Pool): Pool {
    StopEach(p.(closing := true), p.order)
  }

  function Settle(p: Pool): Pool {
    if !p.waiting then p
    else if p.fault || |p.nodes| == 0 then
      p.(waiting := false, settled := p.settled + [Settlement(p.fault, |p.nodes|, |p.flights|)])
    else p
  }

  function Removed(order: seq<Uid>, uid: Uid): seq<Uid> {
    if order == [] then []
    else if order[0] == uid then order[1..]
    else [order[0]] + Removed(order[1..], uid)
  }

  /** `onEnd` of a registered node's run. */
  function End(p: Pool, uid: Uid, failed: bool): Pool
    requires uid in p.nodes
  {
    Settle(p.(nodes := p.nodes - {uid}, departures := p.departures - {uid}, order := Removed(p.order, uid),
              fault := p.fault || (p.nodes[uid].booted && failed)))
  }

  datatype DrainReply = Rejects | Resolves | Waits

  function Drain(p: Pool): (DrainReply, Pool) {
    if p.fault then (Rejects, p)
    else if |p.nodes| == 0 then (Resolves, p)
    else (Waits, p.(waiting := true))
  }

  /** The pool after every booted node was registered, before any run starts. */
  function Booted(max: nat, uids: seq<Uid>, canSpawn: set<Uid>): Pool {
    Pool(max, map u | u in uids :: Node(u in canSpawn, true, false), uids, {}, {}, false, false, false, [], [], [])
  }

  datatype Action =
    | Spawn(request: Request)
    | ComposeSettles(i: nat, ok: bool)
    | DiscardSettles(i: nat)
    | Departing(uid: Uid)
    | Depart(uid: Uid)
    | Ends(uid: Uid, failed: bool)
    | Stop
    | Await

  /** A requester's run awaits its spawns, so it cannot end before them. */
  predicate AwaitsNothing(p: Pool, uid: Uid) {
    forall i :: 0 <= i < |p.flights| ==> p.flights[i].requester != uid
  }

  ghost function Step(p: Pool, a: Action): Option<Pool> {
    match a
    case Spawn(request) => Some(Reserve(p, request).1)
    case ComposeSettles(i, ok) =>
      if i < |p.flights| && !p.flights[i].discarding then Some(Composed(p, i, ok)) else None
    case DiscardSettles(i) =>
      if i < |p.flights| && p.flights[i].discarding then Some(Released(p, i)) else None
    case Departing(uid) => Some(BeginDepart(p, uid).1)
    case Depart(uid) => if uid in p.departures then Some(Stopped(p, uid)) else None
    case Ends(uid, failed) => if uid in p.nodes && AwaitsNothing(p, uid) then Some(End(p, uid, failed)) else None
    case Stop => Some(StopAll(p))
    case Await => Some(Drain(p).1)
  }

  ghost function Execute(p: Pool, actions: seq<Action>): Option<Pool> {
    if actions == [] then Some(p)
    else
      match Execute(p, actions[..|actions| - 1])
      case None => None
      case Some(before) => Step(before, actions[|actions| - 1])
  }

  // --- the class -----------------------------------------------------------------------------------

  lemma PassedOver(order: seq<Uid>, uid: Uid, at: nat)
    requires at < |order| && order[at] != uid
    ensures order[..at] + Removed(order[at..], uid) == order[..at + 1] + Removed(order[at + 1..], uid)
  {
    assert order[at..][1..] == order[at + 1..];
    assert order[..at + 1] == order[..at] + [order[at]];
  }

  class NodePool {
    const max: nat
    var nodes: map<Uid, Node>
    var order: seq<Uid>
    var reservations: set<Uid>
    var departures: set<Uid>
    var closing: bool
    var fault: bool
    var waiting: bool
    var flights: seq<Flight>
    ghost var settled: seq<Settlement>
    ghost var stops: seq<Uid>

    ghost function State(): Pool
      reads this
    {
      Pool(max, nodes, order, reservations, departures, closing, fault, waiting, flights, settled, stops)
    }

    constructor (max: nat)
      ensures State() == Booted(max, [], {})
    {
      this.max := max;
      nodes, order, reservations, departures := map[], [], {}, {};
      closing, fault, waiting, flights := false, false, false, [];
      settled, stops := [], [];
    }

    /** `addBooted`, for a uid not registered yet. */
    method AddBooted(uid: Uid, canSpawn: bool)
      modifies this
      ensures State() == old(State()).(nodes := old(nodes)[uid := Node(canSpawn, true, false)],
                                       order := old(order) + [uid])
    {
      nodes := nodes[uid := Node(canSpawn, true, false)];
      order := order + [uid];
    }

    /** `reserveUid`: the highest known number plus one. */
    method ReserveUid(disk: set<Uid>) returns (uid: Uid)
      modifies this`reservations
      ensures uid == Mint(old(State()), disk) && reservations == old(reservations) + {uid}
    {
      var known := Numbers(nodes.Keys + reservations + disk);
      var rest, top := known, 0;
      while rest != {}
        invariant rest <= known && forall y :: y in known && y !in rest ==> y <= top
        invariant top == 0 || top in known
        decreases |rest|
      {
        var x :| x in rest;
        if x > top { top := x; }
        rest := rest - {x};
      }
      var n := top + 1;
      // The source goes on while the number is taken; it never is.
      assert n == Highest(known) + 1 && n !in known;
      uid := Minted(n);
      reservations := reservations + {uid};
    }

    /** `spawn` up to its await: every check in order, then the reservation. */
    method SpawnReserves(r: Request) returns (reply: Reply)
      modifies this
      ensures (reply, State()) == Reserve(old(State()), r)
    {
      if closing { return Stopping; }
      if r.requester !in nodes { return NotLive; }
      if !nodes[r.requester].canSpawn { return NotGranted; }
      if !r.modelKnown { return UnknownModel; }
      if |nodes| + |reservations| >= max { return Full; }
      if r.disk.None? { return Unminted; }
      var uid := ReserveUid(r.disk.value);
      if !r.sendable {
        reservations := reservations - {uid};
        return Unsendable;
      }
      flights := flights + [Flight(uid, r.requester, r.spawn, false)];
      reply := Reserved(uid);
    }

    method Release(i: nat)
      requires i < |flights|
      modifies this
      ensures State() == Released(old(State()), i)
    {
      reservations := reservations - {flights[i].uid};
      flights := flights[..i] + flights[i + 1..];
    }

    /** `spawn` from its await on: the pause is checked again in the turn that registers. */
    method ComposeSettled(i: nat, ok: bool)
      requires i < |flights|
      modifies this
      ensures State() == Composed(old(State()), i, ok)
    {
      var f := flights[i];
      if ok && closing {
        flights := flights[i := f.(discarding := true)];
        return;
      }
      if ok {
        nodes := nodes[f.uid := Node(f.canSpawn, false, false)];
        order := order + [f.uid];
      }
      Release(i);
    }

    method CheckAndMark(uid: Uid) returns (granted: bool)
      modifies this
      ensures (granted, State()) == BeginDepart(old(State()), uid)
    {
      if uid !in nodes { return false; }
      if uid in departures { return true; }
      if |nodes| - |departures| <= 1 { return false; }
      departures := departures + {uid};
      granted := true;
    }

    method StopOne(uid: Uid)
      modifies this
      ensures State() == Stopped(old(State()), uid)
    {
      if uid in nodes {
        nodes := nodes[uid := nodes[uid].(stopped := true)];
        stops := stops + [uid];
      }
    }

    method StopEveryone()
      modifies this
      ensures State() == StopAll(old(State()))
    {
      closing := true;
      var walk := order;
      ghost var from := State();
      var i := |walk|;
      assert walk[..i] == walk;
      while i > 0
        invariant 0 <= i <= |walk|
        invariant StopEach(State(), walk[..i]) == StopEach(from, walk)
      {
        assert walk[..i][..i - 1] == walk[..i - 1];
        StopOne(walk[i - 1]);
        i := i - 1;
      }
    }

    method SettleDrain()
      modifies this
      ensures State() == Settle(old(State()))
    {
      if !waiting { return; }
      if fault || |nodes| == 0 {
        waiting := false;
        settled := settled + [Settlement(fault, |nodes|, |flights|)];
      }
    }

    /** The uid is cut out of the order at its first place. */
    static method Splice(order: seq<Uid>, uid: Uid) returns (r: seq<Uid>)
      ensures r == Removed(order, uid)
    {
      var at := 0;
      assert order[..0] == [] && order[0..] == order;
      while at < |order| && order[at] != uid
        invariant at <= |order|
        invariant Removed(order, uid) == order[..at] + Removed(order[at..], uid)
      {
        PassedOver(order, uid, at);
        at := at + 1;
      }
      r := order;
      if at < |order| {
        assert order[at..][1..] == order[at + 1..];
        r := order[..at] + order[at + 1..];
      }
    }

    method OnEnd(uid: Uid, failed: bool)
      requires uid in nodes
      modifies this
      ensures State() == End(old(State()), uid, failed)
    {
      var booted := nodes[uid].booted;
      nodes := nodes - {uid};
      departures := departures - {uid};
      order := Splice(order, uid);
      if booted && failed { fault := true; }
      SettleDrain();
    }

    method AwaitDrain() returns (reply: DrainReply)
      modifies this
      ensures (reply, State()) == Drain(old(State()))
    {
      if fault { return Rejects; }
      if |nodes| == 0 { return Resolves; }
      waiting := true;
      reply := Waits;
    }
  }
}
