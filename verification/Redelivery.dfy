/**
 Redelivery (`observe` in `src/context/fold.ts`): slices of one chain may overlap or
 repeat, but a gap is refused. Delivering them leaves the fold where one pass over
 the longest prefix leaves it.
 */
module Redelivery {
  import opened Wrappers
  import opened Contracts
  import opened Events
  import opened FoldSteps
  import opened FoldInvariant
  import opened Conservation
  import opened FoldRuns

  ghost predicate IsChain(chain: seq<Event>) {
    forall i :: 0 <= i < |chain| ==> chain[i].source.position == i
  }

  datatype Slice = Slice(from: nat, to: nat)

  /** Slices of a chain of that length, none starting past what earlier ones delivered. */
  ghost predicate WithoutGaps(slices: seq<Slice>, reached: nat, length: nat) {
    slices == [] ||
    (slices[0].from <= slices[0].to <= length && slices[0].from <= reached
     && WithoutGaps(slices[1..], Further(reached, slices[0]), length))
  }

  function Further(reached: nat, slice: Slice): nat {
    if slice.to > reached then slice.to else reached
  }

  /** The longest prefix the slices cover. */
  function Longest(slices: seq<Slice>, reached: nat): nat {
    if slices == [] then reached else Longest(slices[1..], Further(reached, slices[0]))
  }

  lemma {:induction false} LongestWithin(slices: seq<Slice>, reached: nat, length: nat)
    requires WithoutGaps(slices, reached, length) && reached <= length
    ensures reached <= Longest(slices, reached) <= length
  {
    if slices != [] {
      LongestWithin(slices[1..], Further(reached, slices[0]), length);
    }
  }

  function Deliver(s: FoldState, chain: seq<Event>, slices: seq<Slice>): Option<FoldState>
    requires forall i :: 0 <= i < |slices| ==> slices[i].from <= slices[i].to <= |chain|
    decreases |slices|
  {
    if slices == [] then Some(s)
    else match Observe(s, chain[slices[0].from..slices[0].to])
      case None => None
      case Some(next) => Deliver(next, chain, slices[1..])
  }

  lemma {:induction false} ObserveConcat(s: FoldState, a: seq<Event>, b: seq<Event>)
    ensures Observe(s, a + b) ==
      match Observe(s, a)
      case None => None
      case Some(next) => Observe(next, b)
    decreases |a|
  {
    hide ObserveOne;
    if a == [] {
      assert a + b == b;
    } else {
      assert (a + b)[1..] == a[1..] + b;
      match ObserveOne(s, a[0])
      case None =>
      case Some(next) => ObserveConcat(next, a[1..], b);
    }
  }

  /** Observing a chain from the start is one accounted pass over it. */
  lemma {:induction false} ObserveIsPlay(chain: seq<Event>)
    requires IsChain(chain)
    ensures Observe(INITIAL, chain).Some? <==> Play(chain).Some?
    ensures Play(chain).Some? ==> Observe(INITIAL, chain) == Some(Play(chain).value.state)
  {
    hide Advance, RemovedBy, DroppedBy, LedgerOk;
    if chain != [] {
      var shorter, e := chain[..|chain| - 1], chain[|chain| - 1];
      ObserveIsPlay(shorter);
      ObserveConcat(INITIAL, shorter, [e]);
      assert chain == shorter + [e];
      if Play(shorter).Some? {
        SeenIs(shorter);
        ObserveSingle(Play(shorter).value.state, e);
      }
    }
  }

  lemma ObserveSingle(s: FoldState, e: Event)
    ensures Observe(s, [e]) == ObserveOne(s, e)
  {
    hide ObserveOne;
    assert [e][1..] == [];
    match ObserveOne(s, e)
    case None =>
    case Some(next) => assert Observe(next, []) == Some(next);
  }

  lemma SeenIs(chain: seq<Event>)
    requires Play(chain).Some?
    ensures Play(chain).value.state.seen == chain
  {
    hide Account, Parts, IndexOk, Held, Exchanged;
    RunKeeps(chain);
  }

  /** Events the fold has already seen change nothing. */
  lemma {:induction false} RepeatsAreSkipped(s: FoldState, chain: seq<Event>, from: nat, to: nat)
    requires IsChain(chain) && from <= to <= |s.seen| <= |chain|
    requires s.seen == chain[..|s.seen|]
    ensures Observe(s, chain[from..to]) == Some(s)
    decreases |s.seen| - from
  {
    if from < to {
      assert chain[from..to][0] == chain[from] == s.seen[from];
      assert chain[from..to][1..] == chain[from + 1..to];
      RepeatsAreSkipped(s, chain, from + 1, to);
    }
  }

  /** The fold after one pass over the first `n` events, if that pass succeeds. */
  function After(chain: seq<Event>, n: nat): Option<FoldState>
    requires n <= |chain|
  {
    Observe(INITIAL, chain[..n])
  }

  lemma AfterSeen(chain: seq<Event>, n: nat)
    requires IsChain(chain) && n <= |chain| && After(chain, n).Some?
    ensures After(chain, n).value.seen == chain[..n]
    ensures IndexOk(chain[..n], After(chain, n).value.index)
    ensures After(chain, n).value.watermark == if n == 0 then None else Some(chain[n - 1].source)
  {
    hide Account, Parts, IndexOk, Held, Exchanged, Observe;
    ObserveIsPlay(chain[..n]);
    RunKeeps(chain[..n]);
  }

  lemma OneDelivery(chain: seq<Event>, n: nat, slice: Slice)
    requires IsChain(chain) && n <= |chain| && After(chain, n).Some?
    requires slice.from <= slice.to <= |chain| && slice.from <= n
    ensures Observe(After(chain, n).value, chain[slice.from..slice.to]) == After(chain, Further(n, slice))
  {
    hide Observe;
    var s := After(chain, n).value;
    AfterSeen(chain, n);
    if slice.to <= n {
      RepeatsAreSkipped(s, chain, slice.from, slice.to);
    } else {
      RepeatsAreSkipped(s, chain, slice.from, n);
      assert chain[slice.from..slice.to] == chain[slice.from..n] + chain[n..slice.to];
      ObserveConcat(s, chain[slice.from..n], chain[n..slice.to]);
      assert chain[..slice.to] == chain[..n] + chain[n..slice.to];
      ObserveConcat(INITIAL, chain[..n], chain[n..slice.to]);
    }
  }

  lemma FailureStays(chain: seq<Event>, n: nat, m: nat)
    requires n <= m <= |chain| && After(chain, n).None?
    ensures After(chain, m).None?
  {
    hide Observe;
    assert chain[..m] == chain[..n] + chain[n..m];
    ObserveConcat(INITIAL, chain[..n], chain[n..m]);
  }

  lemma {:induction false} Deliveries(chain: seq<Event>, n: nat, slices: seq<Slice>)
    requires IsChain(chain) && n <= |chain| && After(chain, n).Some?
    requires WithoutGaps(slices, n, |chain|)
    requires forall i :: 0 <= i < |slices| ==> slices[i].from <= slices[i].to <= |chain|
    ensures n <= Longest(slices, n) <= |chain|
    ensures Deliver(After(chain, n).value, chain, slices) == After(chain, Longest(slices, n))
    decreases |slices|
  {
    hide Observe, After;
    LongestWithin(slices, n, |chain|);
    if slices != [] {
      var slice := slices[0];
      OneDelivery(chain, n, slice);
      var m := Further(n, slice);
      LongestWithin(slices[1..], m, |chain|);
      if After(chain, m).None? {
        FailureStays(chain, m, Longest(slices, n));
      } else {
        Deliveries(chain, m, slices[1..]);
      }
    }
  }

  /**
   Redelivery refines one pass: any contiguous slices of a chain, overlapping or
   repeated but without a gap, leave the fold exactly as one pass over the longest
   prefix delivered, and its index and watermark describe exactly that prefix.
   */
  lemma RedeliveryIsOnePass(chain: seq<Event>, slices: seq<Slice>)
    requires IsChain(chain) && WithoutGaps(slices, 0, |chain|)
    requires forall i :: 0 <= i < |slices| ==> slices[i].from <= slices[i].to <= |chain|
    ensures var n := Longest(slices, 0);
            && n <= |chain|
            && Deliver(INITIAL, chain, slices) == Observe(INITIAL, chain[..n])
            && (Deliver(INITIAL, chain, slices).Some? ==>
                  var s := Deliver(INITIAL, chain, slices).value;
                  && s.seen == chain[..n] && IndexOk(chain[..n], s.index)
                  && s.watermark == (if n == 0 then None else Some(chain[n - 1].source)))
  {
    hide Deliver, IndexOk;
    assert chain[..0] == [];
    Deliveries(chain, 0, slices);
    var n := Longest(slices, 0);
    if After(chain, n).Some? {
      AfterSeen(chain, n);
    }
  }

  /**
   What one delivery does to a fold that has read `chain`: the event after the chain is
   observed, one the chain already has is skipped if it carries that event's hash, and a
   changed hash or a gap is refused.
   */
  lemma DeliveryIff(chain: seq<Event>, e: Event)
    requires IsChain(chain) && Observe(INITIAL, chain).Some?
    ensures var s, next := Observe(INITIAL, chain).value, Observe(Observe(INITIAL, chain).value, [e]);
            && (e.source.position < |chain| ==>
                  next == if e.source == chain[e.source.position].source then Some(s) else None)
            && (e.source.position > |chain| ==> next.None?)
            && (e.source.position == |chain| ==> next == Observe(INITIAL, chain + [e]))
  {
    hide Advance, Observe;
    assert chain[..|chain|] == chain;
    AfterSeen(chain, |chain|);
    ObserveSingle(Observe(INITIAL, chain).value, e);
    ObserveConcat(INITIAL, chain, [e]);
  }
}
