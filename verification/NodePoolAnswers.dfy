/**
 What the node pool answers: which spawn gets a place and what it leaves of the pool, which
 departure is granted, and how a drain settles, each read off the pool or the run before it.
 */
module NodePoolAnswers {
  import opened Wrappers
  import opened Finite
  import opened NodePools
  import opened NodePoolSafety

  // --- spawning -----------------------------------------------------------------------------

  /** Nothing stands in the way of the spawn. */
  predicate MaySpawn(p: Pool, r: Request) {
    && !p.closing && r.requester in p.nodes && p.nodes[r.requester].canSpawn
    && r.modelKnown && |p.nodes| + |p.reservations| < p.max && r.disk.Some? && r.sendable
  }

  /** A spawn is given a place if and only if nothing stands in its way; a refusal leaves the pool as it was. */
  lemma ReservedIff(p: Pool, r: Request)
    requires PoolOk(p) && Mints(p, Spawn(r))
    ensures Reserve(p, r).0.Reserved? <==> MaySpawn(p, r)
    ensures !MaySpawn(p, r) ==> Reserve(p, r).1 == p
  {
    hide PoolOk, Mintable, Mint;
    ReserveKeeps(p, r);
  }

  /** A refusal names the first thing in the way: the host's own state, then the request's, then the home's. */
  lemma ReplyIff(p: Pool, r: Request)
    ensures var reply, live := Reserve(p, r).0, !p.closing && r.requester in p.nodes;
            && (reply.Stopping? <==> p.closing)
            && (reply.NotLive? <==> !p.closing && r.requester !in p.nodes)
            && (reply.NotGranted? <==> live && !p.nodes[r.requester].canSpawn)
            && (reply.UnknownModel? <==> live && p.nodes[r.requester].canSpawn && !r.modelKnown)
            && (reply.Full? <==> live && p.nodes[r.requester].canSpawn && r.modelKnown
                                 && p.max <= |p.nodes| + |p.reservations|)
            && (reply.Unminted? <==> live && p.nodes[r.requester].canSpawn && r.modelKnown
                                     && |p.nodes| + |p.reservations| < p.max && r.disk.None?)
            && (reply.Unsendable? <==> live && p.nodes[r.requester].canSpawn && r.modelKnown
                                       && |p.nodes| + |p.reservations| < p.max && r.disk.Some? && !r.sendable)
  {
    hide Mint;
  }

  /**
   One spawn, taken alone, in a pool that is not closing: when nothing stands in its way and its
   composition succeeds, the pool has one more node, last in the order, under a name that was
   free, with the grant the requester asked for; in every other case it is as it was.
   */
  lemma SpawnAlone(p: Pool, r: Request, ok: bool)
    requires PoolOk(p) && Mints(p, Spawn(r))
    ensures var reserved := Step(p, Spawn(r)).value;
            && (!MaySpawn(p, r) ==> reserved == p)
            && (MaySpawn(p, r) ==>
                  var at, uid := |p.flights|, Reserve(p, r).0.uid;
                  && uid !in p.nodes && uid !in p.reservations && uid !in r.disk.value
                  && Step(reserved, ComposeSettles(at, ok)).Some?
                  && Step(reserved, ComposeSettles(at, ok)).value ==
                       if ok then p.(nodes := p.nodes[uid := Node(r.spawn, false, false)], order := p.order + [uid]) else p)
  {
    hide PoolOk, Mintable, Mint, NoDuplicates;
    ReservedIff(p, r);
    ReserveKeeps(p, r);
    if MaySpawn(p, r) {
      ReserveIs(p, r);
      var uid := Reserve(p, r).0.uid;
      var f := Flight(uid, r.requester, r.spawn, false);
      assert (p.flights + [f])[..|p.flights|] + (p.flights + [f])[|p.flights| + 1..] == p.flights;
      assert p.reservations + {uid} - {uid} == p.reservations;
    }
  }

  /** A composition that settles in a closing pool registers nothing: its cell is closed and its place given back. */
  lemma SpawnWhileClosing(p: Pool, i: nat, ok: bool)
    requires p.closing && i < |p.flights| && !p.flights[i].discarding
    ensures Step(p, ComposeSettles(i, ok)).Some?
    ensures var q := Step(p, ComposeSettles(i, ok)).value;
            && q.nodes == p.nodes && q.order == p.order && q.departures == p.departures
            && (!ok ==> q.flights == p.flights[..i] + p.flights[i + 1..]
                        && q.reservations == p.reservations - {p.flights[i].uid})
            && (ok ==> Step(q, DiscardSettles(i)).Some?
                       && Step(q, DiscardSettles(i)).value
                          == p.(flights := p.flights[..i] + p.flights[i + 1..],
                                reservations := p.reservations - {p.flights[i].uid}))
  {
    if ok {
      var q := Step(p, ComposeSettles(i, ok)).value;
      assert q.flights[..i] + q.flights[i + 1..] == p.flights[..i] + p.flights[i + 1..];
    }
  }

  // --- departing --------------------------------------------------------------------------------

  /** A departure is granted if and only if the node is live and was granted already, or another stays. */
  lemma DepartIff(p: Pool, uid: Uid)
    requires PoolOk(p)
    ensures BeginDepart(p, uid).0 <==>
              uid in p.nodes && (uid in p.departures || exists u :: u in p.nodes && u !in p.departures && u != uid)
    ensures BeginDepart(p, uid).1 ==
              if BeginDepart(p, uid).0 then p.(departures := p.departures + {uid}) else p
  {
    hide NoDuplicates, FlightsOk;
    if uid in p.nodes && uid !in p.departures {
      var staying := p.nodes.Keys - p.departures;
      assert p.nodes.Keys == staying + p.departures;
      assert |staying| == |p.nodes| - |p.departures|;
      assert uid in staying;
      if u :| u in p.nodes && u !in p.departures && u != uid {
        SmallerSet({u, uid}, staying);
      } else {
        assert staying == {uid};
      }
    } else if uid in p.departures {
      assert p.departures + {uid} == p.departures;
    }
  }

  // --- ending and draining ------------------------------------------------------------------------

  /** At some point of the run a node that was booted ended in failure. */
  ghost predicate BootedFailed(p: Pool, actions: seq<Action>) {
    if actions == [] then false
    else
      var shorter, last := actions[..|actions| - 1], actions[|actions| - 1];
      || BootedFailed(p, shorter)
      || (Execute(p, shorter).Some? && last.Ends? && last.failed && last.uid in Execute(p, shorter).value.nodes
          && Execute(p, shorter).value.nodes[last.uid].booted)
  }

  lemma FaultStep(p: Pool, a: Action)
    requires Step(p, a).Some?
    ensures Step(p, a).value.fault <==>
              p.fault || (a.Ends? && a.failed && a.uid in p.nodes && p.nodes[a.uid].booted)
  {
    hide StopEach, Reserve, Removed;
    match a
    case Spawn(r) => ReserveFault(p, r);
    case Stop => StopsFault(p.(closing := true), p.order);
    case _ =>
  }

  lemma ReserveFault(p: Pool, r: Request)
    ensures Reserve(p, r).1.fault == p.fault
  {
  }

  lemma {:induction false} StopsFault(p: Pool, order: seq<Uid>)
    ensures StopEach(p, order).fault == p.fault
    decreases |order|
  {
    if order != [] {
      StopsFault(Stopped(p, order[|order| - 1]), order[..|order| - 1]);
    }
  }

  /** The pool is at fault if and only if some booted node's run failed; a spawned node's failure is its own. */
  lemma {:induction false} FaultIff(max: nat, uids: seq<Uid>, canSpawn: set<Uid>, actions: seq<Action>)
    requires Execute(Booted(max, uids, canSpawn), actions).Some?
    ensures Execute(Booted(max, uids, canSpawn), actions).value.fault
       <==> BootedFailed(Booted(max, uids, canSpawn), actions)
  {
    hide Step;
    if actions != [] {
      var p, shorter := Booted(max, uids, canSpawn), actions[..|actions| - 1];
      FaultIff(max, uids, canSpawn, shorter);
      FaultStep(Execute(p, shorter).value, actions[|actions| - 1]);
    }
  }

  /** A drain is answered at once when a booted node failed, or when nobody is live; else it waits. */
  lemma DrainIff(max: nat, uids: seq<Uid>, canSpawn: set<Uid>, actions: seq<Action>)
    requires Execute(Booted(max, uids, canSpawn), actions).Some?
    ensures var booted := Booted(max, uids, canSpawn);
            var p, failed := Execute(booted, actions).value, BootedFailed(booted, actions);
            && (Drain(p).0.Rejects? <==> failed)
            && (Drain(p).0.Resolves? <==> !failed && p.nodes == map[])
            && Drain(p).1 == if Drain(p).0.Waits? then p.(waiting := true) else p
  {
    hide Execute, BootedFailed;
    FaultIff(max, uids, canSpawn, actions);
  }

  /**
   A waiting drain settles at the first end that fails a booted node, by rejecting, or that
   leaves nobody live, by resolving; at no other end.
   */
  lemma WaitingSettles(max: nat, uids: seq<Uid>, canSpawn: set<Uid>, actions: seq<Action>, uid: Uid, failed: bool)
    requires NoDuplicates(uids) && |uids| <= max && AllMint(Booted(max, uids, canSpawn), actions)
    requires Execute(Booted(max, uids, canSpawn), actions).Some?
    requires var p := Execute(Booted(max, uids, canSpawn), actions).value; p.waiting && Step(p, Ends(uid, failed)).Some?
    ensures var p := Execute(Booted(max, uids, canSpawn), actions).value;
            var q, rejects := Step(p, Ends(uid, failed)).value, failed && p.nodes[uid].booted;
            && q.nodes == p.nodes - {uid}
            && (q.waiting <==> !rejects && p.nodes.Keys != {uid})
            && q.settled == if q.waiting then p.settled
                            else p.settled + [Settlement(rejects, |p.nodes| - 1, |p.flights|)]
  {
    hide Execute, AllMint, NoDuplicates, FlightsOk, RosterOk, Removed;
    BootedIsOk(max, uids, canSpawn);
    RunKeeps(Booted(max, uids, canSpawn), actions);
    var p := Execute(Booted(max, uids, canSpawn), actions).value;
    assert (p.nodes - {uid}).Keys == p.nodes.Keys - {uid};
    assert |p.nodes.Keys - {uid}| == |p.nodes| - 1;
    assert p.nodes.Keys - {uid} == {} <==> p.nodes.Keys == {uid};
  }
}
