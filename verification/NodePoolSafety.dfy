/**
 What every interleaving of spawns, departures, ends and stops keeps in the node pool,
 and exactly when a minted name is new.
 */
module NodePoolSafety {
  import opened Wrappers
  import opened Decimals
  import opened Finite
  import opened NodePools

  // --- minting -----------------------------------------------------------------------------------

  /**
   A mint that finds the highest safe number taken writes the first unsafe one, which it
   never counts; it is a fresh name in every other case.
   */
  ghost predicate Mintable(p: Pool, disk: set<Uid>) {
    !(MAX_SAFE_INTEGER in Numbers(Names(p, disk)) && Minted(MAX_SAFE_INTEGER + 1) in Names(p, disk))
  }

  lemma NumbersAreSafe(names: set<Uid>)
    ensures Highest(Numbers(names)) <= MAX_SAFE_INTEGER
  {
  }

  lemma AboveIsNew(names: set<Uid>)
    requires Highest(Numbers(names)) < MAX_SAFE_INTEGER
    ensures Minted(Highest(Numbers(names)) + 1) !in names
  {
    var top := Highest(Numbers(names));
    assert NumberOf(Minted(top + 1)) == Some(top + 1);
    forall u | u in names && NumberOf(u).Some? ensures NumberOf(u).value <= top {
      assert NumberOf(u).value in Numbers(names);
    }
  }

  /** A minted uid is neither live, reserved nor on disk, exactly when the names are mintable. */
  lemma FreshIff(p: Pool, disk: set<Uid>)
    ensures Mint(p, disk) !in Names(p, disk) <==> Mintable(p, disk)
  {
    var names := Names(p, disk);
    var numbers := Numbers(names);
    var top := Highest(numbers);
    NumbersAreSafe(names);
    if top < MAX_SAFE_INTEGER {
      AboveIsNew(names);
      assert MAX_SAFE_INTEGER !in numbers;
    } else {
      assert MAX_SAFE_INTEGER in numbers;
    }
  }

  /** The failing family has members: over such a disk two spawns in a row are given one name. */
  lemma SecondMintRepeats(p: Pool, requester: Uid)
    requires !p.closing && requester in p.nodes && p.nodes[requester].canSpawn
    requires |p.nodes| + |p.reservations| + 1 < p.max && p.reservations == {}
    ensures var r := Request(requester, false, true, true, Some({Minted(MAX_SAFE_INTEGER)}));
            var first := Reserve(p, r);
            Reserve(first.1, r).0 == first.0 == Reserved(Minted(MAX_SAFE_INTEGER + 1))
  {
    hide Mint;
    var disk := {Minted(MAX_SAFE_INTEGER)};
    var r := Request(requester, false, true, true, Some(disk));
    TopMint(p, disk);
    var next := Reserve(p, r).1;
    TopMint(next, disk);
    assert |next.reservations| == 1;
  }

  lemma TopMint(p: Pool, disk: set<Uid>)
    requires Minted(MAX_SAFE_INTEGER) in disk
    ensures Mint(p, disk) == Minted(MAX_SAFE_INTEGER + 1)
  {
    assert NumberOf(Minted(MAX_SAFE_INTEGER)) == Some(MAX_SAFE_INTEGER);
    NumbersAreSafe(Names(p, disk));
    assert Minted(MAX_SAFE_INTEGER) in Names(p, disk);
    assert MAX_SAFE_INTEGER in Numbers(Names(p, disk));
  }

  // --- the invariant ---------------------------------------------------------------------------------

  ghost predicate FlightsOk(p: Pool) {
    && (forall i, j :: 0 <= i < j < |p.flights| ==> p.flights[i].uid != p.flights[j].uid)
    && (forall i :: 0 <= i < |p.flights| ==>
          p.flights[i].uid in p.reservations && p.flights[i].uid !in p.nodes && p.flights[i].requester in p.nodes)
    && (forall u :: u in p.reservations ==> exists i :: 0 <= i < |p.flights| && p.flights[i].uid == u)
  }

  ghost predicate RosterOk(p: Pool) {
    && |p.nodes| + |p.reservations| <= p.max
    && NoDuplicates(p.order) && (forall u :: u in p.order <==> u in p.nodes)
    && p.departures <= p.nodes.Keys
  }

  /** Once closing, every live node has had its stop; only a closing pool discards a fresh cell. */
  ghost predicate StopsOk(p: Pool) {
    if p.closing then forall u :: u in p.nodes ==> p.nodes[u].stopped
    else forall i :: 0 <= i < |p.flights| ==> !p.flights[i].discarding
  }

  /** A drain waits only while a node is live and nothing faulted; one that resolved found nobody. */
  ghost predicate DrainOk(p: Pool) {
    && (p.waiting ==> !p.fault && |p.nodes| > 0)
    && forall i :: 0 <= i < |p.settled| && !p.settled[i].rejected ==> p.settled[i].live == 0 && p.settled[i].spawning == 0
  }

  ghost predicate PoolOk(p: Pool) {
    RosterOk(p) && FlightsOk(p) && StopsOk(p) && DrainOk(p)
  }

  /** Every mint of the step finds mintable names. */
  ghost predicate Mints(p: Pool, a: Action) {
    a.Spawn? && a.request.disk.Some? ==> Mintable(p, a.request.disk.value)
  }

  ghost function WithFlight(p: Pool, f: Flight): Pool {
    p.(reservations := p.reservations + {f.uid}, flights := p.flights + [f])
  }

  lemma NewFlight(p: Pool, f: Flight)
    requires FlightsOk(p) && f.uid !in p.nodes && f.uid !in p.reservations && f.requester in p.nodes
    ensures FlightsOk(WithFlight(p, f))
  {
    var next := WithFlight(p, f);
    assert next.flights[|p.flights|] == f;
    forall u | u in next.reservations ensures exists i :: 0 <= i < |next.flights| && next.flights[i].uid == u {
      if u != f.uid {
        var i :| 0 <= i < |p.flights| && p.flights[i].uid == u;
        assert next.flights[i].uid == u;
      }
    }
  }

  lemma NewFlightKeeps(p: Pool, f: Flight)
    requires PoolOk(p) && !p.closing && !f.discarding && |p.nodes| + |p.reservations| < p.max
    requires f.uid !in p.nodes && f.uid !in p.reservations && f.requester in p.nodes
    ensures PoolOk(WithFlight(p, f))
  {
    hide FlightsOk, NoDuplicates;
    NewFlight(p, f);
    assert |p.reservations + {f.uid}| == |p.reservations| + 1;
  }

  /** What `Reserve` makes of the pool, given the minted name. */
  lemma ReserveIs(p: Pool, r: Request)
    ensures var (reply, next) := Reserve(p, r);
            if reply.Reserved? then
              && !p.closing && r.requester in p.nodes && |p.nodes| + |p.reservations| < p.max && r.disk.Some?
              && reply.uid == Mint(p, r.disk.value)
              && next == WithFlight(p, Flight(reply.uid, r.requester, r.spawn, false))
            else r.disk.None? || next == p || next == p.(reservations := p.reservations + {Mint(p, r.disk.value)}
                                                                         - {Mint(p, r.disk.value)})
    ensures r.disk.None? ==> Reserve(p, r).1 == p
  {
    hide Mint;
  }

  lemma ReserveKeeps(p: Pool, r: Request)
    requires PoolOk(p) && Mints(p, Spawn(r))
    ensures PoolOk(Reserve(p, r).1)
    ensures Reserve(p, r).0.Reserved? ==>
              && r.disk.Some? && Reserve(p, r).0.uid !in p.nodes && Reserve(p, r).0.uid !in p.reservations
              && Reserve(p, r).0.uid !in r.disk.value
    ensures !Reserve(p, r).0.Reserved? ==> Reserve(p, r).1 == p
  {
    hide Mintable, Mint, Reserve, PoolOk;
    ReserveIs(p, r);
    if r.disk.Some? {
      FreshIff(p, r.disk.value);
      var uid := Mint(p, r.disk.value);
      assert p.reservations + {uid} - {uid} == p.reservations;
      if Reserve(p, r).0.Reserved? {
        NewFlightKeeps(p, Flight(uid, r.requester, r.spawn, false));
      }
    }
  }

  lemma ReleasedFlights(p: Pool, i: nat)
    requires FlightsOk(p) && i < |p.flights|
    ensures FlightsOk(Released(p, i))
  {
    var f, next := p.flights[i], Released(p, i);
    forall k | 0 <= k < |next.flights| ensures next.flights[k] == p.flights[if k < i then k else k + 1] {
    }
    forall u | u in next.reservations ensures exists k :: 0 <= k < |next.flights| && next.flights[k].uid == u {
      var k :| 0 <= k < |p.flights| && p.flights[k].uid == u;
      assert k != i;
      assert next.flights[if k < i then k else k - 1].uid == u;
    }
  }

  lemma ReleasedKeeps(p: Pool, i: nat)
    requires PoolOk(p) && i < |p.flights|
    ensures PoolOk(Released(p, i))
  {
    hide FlightsOk, NoDuplicates, RosterOk;
    ReleasedFlights(p, i);
    ReleasedRoster(p, i);
    forall k | 0 <= k < |p.flights| - 1 ensures Without(p.flights, i)[k] == p.flights[if k < i then k else k + 1] {
    }
  }

  lemma ReleasedRoster(p: Pool, i: nat)
    requires RosterOk(p) && i < |p.flights|
    ensures RosterOk(Released(p, i))
  {
    hide NoDuplicates;
    SmallerSet(p.reservations - {p.flights[i].uid}, p.reservations);
  }

  lemma SmallerSet<T>(a: set<T>, b: set<T>)
    requires a <= b
    ensures |a| <= |b|
  {
    assert b == a + (b - a);
  }

  /** Registering one more node before its reservation is given back keeps the flights apart from it. */
  lemma RegisteredFlights(p: Pool, i: nat, node: Node)
    requires FlightsOk(p) && i < |p.flights|
    ensures FlightsOk(Released(p.(nodes := p.nodes[p.flights[i].uid := node], order := p.order + [p.flights[i].uid]), i))
  {
    var f := p.flights[i];
    var next := Released(p.(nodes := p.nodes[f.uid := node], order := p.order + [f.uid]), i);
    forall k | 0 <= k < |next.flights| ensures next.flights[k] == p.flights[if k < i then k else k + 1] {
    }
    forall u | u in next.reservations ensures exists k :: 0 <= k < |next.flights| && next.flights[k].uid == u {
      var k :| 0 <= k < |p.flights| && p.flights[k].uid == u;
      assert k != i;
      assert next.flights[if k < i then k else k - 1].uid == u;
    }
  }

  lemma RegisteredCount(p: Pool, i: nat, node: Node)
    requires FlightsOk(p) && i < |p.flights|
    ensures |p.nodes[p.flights[i].uid := node]| == |p.nodes| + 1
    ensures |p.reservations - {p.flights[i].uid}| == |p.reservations| - 1
  {
    var uid := p.flights[i].uid;
    assert p.nodes[uid := node].Keys == p.nodes.Keys + {uid};
    assert p.reservations == (p.reservations - {uid}) + {uid};
  }

  lemma ComposedKeeps(p: Pool, i: nat, ok: bool)
    requires PoolOk(p) && i < |p.flights| && !p.flights[i].discarding
    ensures PoolOk(Composed(p, i, ok))
  {
    hide FlightsOk;
    var f := p.flights[i];
    if !ok {
      ReleasedKeeps(p, i);
    } else if p.closing {
      DiscardingFlights(p, i);
    } else {
      RegisteredKeeps(p, i);
    }
  }

  lemma RegisteredRoster(p: Pool, i: nat, node: Node)
    requires RosterOk(p) && FlightsOk(p) && i < |p.flights|
    ensures RosterOk(Released(p.(nodes := p.nodes[p.flights[i].uid := node], order := p.order + [p.flights[i].uid]), i))
  {
    hide FlightsOk;
    RegisteredCount(p, i, node);
    FlightIsNew(p, i);
  }

  lemma RegisteredKeeps(p: Pool, i: nat)
    requires PoolOk(p) && i < |p.flights| && !p.flights[i].discarding && !p.closing
    ensures PoolOk(Composed(p, i, true))
  {
    hide FlightsOk, RosterOk;
    var node := Node(p.flights[i].canSpawn, false, false);
    RegisteredFlights(p, i, node);
    RegisteredRoster(p, i, node);
    RegisteredCount(p, i, node);
  }

  lemma FlightIsNew(p: Pool, i: nat)
    requires FlightsOk(p) && i < |p.flights|
    ensures p.flights[i].uid !in p.nodes
  {
  }

  lemma DiscardingFlights(p: Pool, i: nat)
    requires FlightsOk(p) && i < |p.flights|
    ensures FlightsOk(p.(flights := p.flights[i := p.flights[i].(discarding := true)]))
  {
    var next := p.(flights := p.flights[i := p.flights[i].(discarding := true)]);
    forall u | u in next.reservations ensures exists k :: 0 <= k < |next.flights| && next.flights[k].uid == u {
      var k :| 0 <= k < |p.flights| && p.flights[k].uid == u;
      assert next.flights[k].uid == u;
    }
  }

  lemma StoppedKeeps(p: Pool, uid: Uid)
    requires PoolOk(p)
    ensures PoolOk(Stopped(p, uid))
  {
    hide NoDuplicates;
    StoppedKeys(p, uid);
  }

  lemma StoppedKeys(p: Pool, uid: Uid)
    ensures Stopped(p, uid).nodes.Keys == p.nodes.Keys && |Stopped(p, uid).nodes| == |p.nodes|
    ensures forall u :: u in p.nodes && p.nodes[u].stopped ==> Stopped(p, uid).nodes[u].stopped
    ensures uid in p.nodes ==> Stopped(p, uid).nodes[uid].stopped
  {
    assert Stopped(p, uid).nodes.Keys == p.nodes.Keys;
  }

  /** The walk stops every node of the order, backwards, and touches nothing else. */
  lemma {:induction false} StopEachIs(p: Pool, order: seq<Uid>)
    requires forall u :: u in order ==> u in p.nodes
    ensures var q := StopEach(p, order);
            && q.nodes.Keys == p.nodes.Keys && |q.nodes| == |p.nodes|
            && (forall u :: u in p.nodes && (u in order || p.nodes[u].stopped) ==> q.nodes[u].stopped)
            && q == p.(nodes := q.nodes, stops := p.stops + Backwards(order))
    decreases |order|
  {
    hide Stopped;
    if order != [] {
      var last, rest := order[|order| - 1], order[..|order| - 1];
      StoppedKeys(p, last);
      StoppedFrame(p, last);
      StopEachIs(Stopped(p, last), rest);
      assert p.stops + [last] + Backwards(rest) == p.stops + Backwards(order);
    }
  }

  function Backwards(order: seq<Uid>): seq<Uid> {
    if order == [] then [] else [order[|order| - 1]] + Backwards(order[..|order| - 1])
  }

  lemma StoppedFrame(p: Pool, uid: Uid)
    requires uid in p.nodes
    ensures Stopped(p, uid) == p.(nodes := Stopped(p, uid).nodes, stops := p.stops + [uid])
  {
  }

  /** After the stop every live node has been stopped, in reverse registration order. */
  lemma StopAllKeeps(p: Pool)
    requires PoolOk(p)
    ensures PoolOk(StopAll(p)) && StopAll(p).closing
    ensures StopAll(p).nodes.Keys == p.nodes.Keys
    ensures StopAll(p).stops == p.stops + Backwards(p.order)
  {
    hide NoDuplicates, StopEach;
    StopEachIs(p.(closing := true), p.order);
  }

  lemma {:induction false} RemovedIs(order: seq<Uid>, uid: Uid)
    requires NoDuplicates(order)
    ensures NoDuplicates(Removed(order, uid))
    ensures forall u :: u in Removed(order, uid) <==> u in order && u != uid
  {
    if order != [] {
      assert order == [order[0]] + order[1..];
      assert order[0] !in order[1..];
      if order[0] != uid {
        RemovedIs(order[1..], uid);
      }
    }
  }

  ghost function WithoutNode(p: Pool, uid: Uid): Pool {
    p.(nodes := p.nodes - {uid}, departures := p.departures - {uid}, order := Removed(p.order, uid))
  }

  lemma WithoutRoster(p: Pool, uid: Uid)
    requires RosterOk(p) && uid in p.nodes
    ensures RosterOk(WithoutNode(p, uid))
  {
    hide NoDuplicates;
    RemovedIs(p.order, uid);
    assert (p.nodes - {uid}).Keys == p.nodes.Keys - {uid};
    SmallerSet(p.nodes.Keys - {uid}, p.nodes.Keys);
  }

  lemma WithoutFlights(p: Pool, uid: Uid)
    requires FlightsOk(p) && AwaitsNothing(p, uid)
    ensures FlightsOk(WithoutNode(p, uid))
  {
  }

  lemma EndKeeps(p: Pool, uid: Uid, failed: bool)
    requires PoolOk(p) && uid in p.nodes && AwaitsNothing(p, uid)
    ensures PoolOk(End(p, uid, failed))
  {
    hide RosterOk, FlightsOk, AwaitsNothing, Removed;
    WithoutRoster(p, uid);
    WithoutFlights(p, uid);
    var next := WithoutNode(p, uid);
    var faulted := next.(fault := p.fault || (p.nodes[uid].booted && failed));
    assert End(p, uid, failed) == Settle(faulted);
    assert RosterOk(faulted) && FlightsOk(faulted) by { FaultFrames(next, faulted.fault); }
    if |next.nodes| == 0 {
      assert p.nodes.Keys - {uid} == (p.nodes - {uid}).Keys == {};
      NobodySpawns(p, uid);
    }
    SettleFrames(faulted);
  }

  lemma FaultFrames(p: Pool, fault: bool)
    requires RosterOk(p) && FlightsOk(p)
    ensures RosterOk(p.(fault := fault)) && FlightsOk(p.(fault := fault))
  {
    hide NoDuplicates;
  }

  lemma SettleFrames(p: Pool)
    requires RosterOk(p) && FlightsOk(p)
    ensures RosterOk(Settle(p)) && FlightsOk(Settle(p))
  {
    hide NoDuplicates;
  }

  /** A pool whose last node may end has no spawn in flight: its requester would be live. */
  lemma NobodySpawns(p: Pool, uid: Uid)
    requires FlightsOk(p) && AwaitsNothing(p, uid) && p.nodes.Keys - {uid} == {}
    ensures p.flights == []
  {
    if p.flights != [] {
      RequesterStays(p, uid, 0);
    }
  }

  lemma RequesterStays(p: Pool, uid: Uid, i: nat)
    requires FlightsOk(p) && AwaitsNothing(p, uid) && i < |p.flights|
    ensures p.flights[i].requester in p.nodes.Keys - {uid}
  {
  }

  lemma StepKeeps(p: Pool, a: Action)
    requires PoolOk(p) && Mints(p, a) && Step(p, a).Some?
    ensures PoolOk(Step(p, a).value)
  {
    hide PoolOk, Reserve, Composed, Released, StopAll, End, Mints, Stopped;
    match a
    case Spawn(request) => ReserveKeeps(p, request);
    case ComposeSettles(i, ok) => ComposedKeeps(p, i, ok);
    case DiscardSettles(i) => ReleasedKeeps(p, i);
    case Departing(uid) => DepartKeeps(p, uid);
    case Depart(uid) => StoppedKeeps(p, uid);
    case Ends(uid, failed) => EndKeeps(p, uid, failed);
    case Stop => StopAllKeeps(p);
    case Await => DrainKeeps(p);
  }

  lemma DepartKeeps(p: Pool, uid: Uid)
    requires PoolOk(p)
    ensures PoolOk(BeginDepart(p, uid).1)
  {
    hide NoDuplicates;
  }

  lemma DrainKeeps(p: Pool)
    requires PoolOk(p)
    ensures PoolOk(Drain(p).1)
  {
    hide NoDuplicates;
  }

  // --- whole runs ----------------------------------------------------------------------------------------

  /** Every mint of the run finds mintable names. */
  ghost predicate AllMint(p: Pool, actions: seq<Action>) {
    if actions == [] then true
    else
      var shorter := actions[..|actions| - 1];
      && AllMint(p, shorter)
      && (Execute(p, shorter).Some? ==> Mints(Execute(p, shorter).value, actions[|actions| - 1]))
  }

  lemma BootedIsOk(max: nat, uids: seq<Uid>, canSpawn: set<Uid>)
    requires NoDuplicates(uids) && |uids| <= max
    ensures PoolOk(Booted(max, uids, canSpawn))
  {
    var p := Booted(max, uids, canSpawn);
    ElementsSize(uids);
    assert p.nodes.Keys == Elements(uids);
  }

  /**
   Over every interleaving: live plus reserved never exceeds the ceiling given that booted
   does not, names in flight are distinct and not live, a spawn's requester is live, a
   drain resolves only with nobody live and nothing spawning.
   */
  lemma {:induction false} RunKeeps(p: Pool, actions: seq<Action>)
    requires PoolOk(p) && AllMint(p, actions) && Execute(p, actions).Some?
    ensures PoolOk(Execute(p, actions).value)
  {
    hide PoolOk, Step, Mints;
    if actions != [] {
      var shorter := actions[..|actions| - 1];
      RunKeeps(p, shorter);
      StepKeeps(Execute(p, shorter).value, actions[|actions| - 1]);
    }
  }

  lemma RequesterIsLive(p: Pool, i: nat)
    requires FlightsOk(p) && i < |p.flights|
    ensures p.flights[i].requester in p.nodes.Keys
  {
  }

  /** The same, read from a boot: what holds at every point of every run of the host. */
  lemma HostRuns(max: nat, uids: seq<Uid>, canSpawn: set<Uid>, actions: seq<Action>)
    requires NoDuplicates(uids) && |uids| <= max
    requires var p := Booted(max, uids, canSpawn); AllMint(p, actions) && Execute(p, actions).Some?
    ensures var q := Execute(Booted(max, uids, canSpawn), actions).value;
            && |q.nodes| + |q.reservations| <= q.max
            && (forall i :: 0 <= i < |q.flights| ==> q.flights[i].requester in q.nodes && q.flights[i].uid !in q.nodes)
            && (|q.nodes| == 0 ==> q.flights == [])
            && (forall i :: 0 <= i < |q.settled| && !q.settled[i].rejected ==> q.settled[i].spawning == 0)
            && (q.closing ==> forall u :: u in q.nodes ==> q.nodes[u].stopped)
  {
    hide Execute, AllMint, NoDuplicates;
    BootedIsOk(max, uids, canSpawn);
    RunKeeps(Booted(max, uids, canSpawn), actions);
    var q := Execute(Booted(max, uids, canSpawn), actions).value;
    if |q.nodes| == 0 && q.flights != [] {
      RequesterIsLive(q, 0);
    }
  }

  // --- stopping ---------------------------------------------------------------------------------------------

  lemma ClosedStep(p: Pool, a: Action)
    requires PoolOk(p) && p.closing && Step(p, a).Some?
    ensures var q := Step(p, a).value;
            && q.closing && q.nodes.Keys <= p.nodes.Keys
            && forall u :: u in q.nodes ==> q.nodes[u].stopped
  {
    hide NoDuplicates, StopEach, FlightsOk;
    match a
    case Stop => StopAllKeeps(p);
    case _ =>
  }

  /** After a stop nothing registers any more, and every node still live has had its stop. */
  lemma {:induction false} NothingAfterStop(p: Pool, before: seq<Action>, after: seq<Action>)
    requires PoolOk(p) && AllMint(p, before + [Stop] + after) && Execute(p, before + [Stop] + after).Some?
    ensures Execute(p, before).Some?
    ensures var q := Execute(p, before + [Stop] + after).value;
            && q.closing && q.nodes.Keys <= Execute(p, before).value.nodes.Keys
            && forall u :: u in q.nodes ==> q.nodes[u].stopped
  {
    hide PoolOk, Step, Mints;
    var actions := before + [Stop] + after;
    if after == [] {
      assert actions == before + [Stop];
      assert actions[..|actions| - 1] == before;
      RunKeeps(p, before);
      StopStep(Execute(p, before).value);
    } else {
      var shorter := before + [Stop] + after[..|after| - 1];
      assert actions[..|actions| - 1] == shorter;
      NothingAfterStop(p, before, after[..|after| - 1]);
      RunKeeps(p, shorter);
      ClosedStep(Execute(p, shorter).value, actions[|actions| - 1]);
    }
  }

  lemma StopStep(p: Pool)
    requires PoolOk(p)
    ensures var q := Step(p, Stop).value;
            q.closing && q.nodes.Keys == p.nodes.Keys && forall u :: u in q.nodes ==> q.nodes[u].stopped
  {
    hide StopAll, NoDuplicates, FlightsOk, DrainOk, RosterOk;
    StopAllKeeps(p);
  }

  // --- departures --------------------------------------------------------------------------------------------

  /** Some live node has not been granted its departure. */
  ghost predicate SomeoneStays(p: Pool) {
    exists u :: u in p.nodes && u !in p.departures
  }

  lemma StaysIff(p: Pool)
    requires p.departures <= p.nodes.Keys
    ensures SomeoneStays(p) <==> |p.departures| < |p.nodes|
  {
    if SomeoneStays(p) {
      var u :| u in p.nodes && u !in p.departures;
      SmallerSet(p.departures, p.nodes.Keys - {u});
      assert p.nodes.Keys == (p.nodes.Keys - {u}) + {u};
    }
    if |p.departures| < |p.nodes| && !SomeoneStays(p) {
      assert p.nodes.Keys <= p.departures;
      SmallerSet(p.nodes.Keys, p.departures);
    }
  }

  /** Every end of the run is that of a node whose departure was granted. */
  ghost predicate OnlyGranted(p: Pool, actions: seq<Action>) {
    if actions == [] then true
    else
      var shorter, last := actions[..|actions| - 1], actions[|actions| - 1];
      && OnlyGranted(p, shorter)
      && (Execute(p, shorter).Some? && last.Ends? ==> last.uid in Execute(p, shorter).value.departures)
  }

  lemma StayStep(p: Pool, a: Action)
    requires PoolOk(p) && SomeoneStays(p) && Step(p, a).Some? && (a.Ends? ==> a.uid in p.departures)
    ensures SomeoneStays(Step(p, a).value)
  {
    hide NoDuplicates, StopEach, Reserve, FlightsOk;
    var u :| u in p.nodes && u !in p.departures;
    match a
    case Spawn(request) => ReserveFrame(p, request);
    case Departing(uid) => GrantLeavesOne(p, uid);
    case Stop => StopEachIs(p.(closing := true), p.order); assert u in Step(p, a).value.nodes;
    case _ => assert u in Step(p, a).value.nodes && u !in Step(p, a).value.departures;
  }

  lemma ReserveFrame(p: Pool, r: Request)
    ensures Reserve(p, r).1.nodes == p.nodes && Reserve(p, r).1.departures == p.departures
  {
  }

  lemma GrantLeavesOne(p: Pool, uid: Uid)
    requires PoolOk(p) && SomeoneStays(p)
    ensures SomeoneStays(BeginDepart(p, uid).1)
  {
    hide NoDuplicates, FlightsOk;
    var next := BeginDepart(p, uid).1;
    StaysIff(p);
    StaysIff(next);
    if next != p {
      assert |p.departures + {uid}| == |p.departures| + 1;
    }
  }

  /** While nodes end only by granted departures, one that was not granted always stays. */
  lemma {:induction false} SomeoneAlwaysStays(p: Pool, actions: seq<Action>)
    requires PoolOk(p) && SomeoneStays(p) && AllMint(p, actions) && OnlyGranted(p, actions)
    requires Execute(p, actions).Some?
    ensures SomeoneStays(Execute(p, actions).value)
  {
    hide PoolOk, Step, Mints, SomeoneStays;
    if actions != [] {
      var shorter := actions[..|actions| - 1];
      SomeoneAlwaysStays(p, shorter);
      RunKeeps(p, shorter);
      StayStep(Execute(p, shorter).value, actions[|actions| - 1]);
    }
  }
}
