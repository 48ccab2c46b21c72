/**
 Boot reconciliation of the frontier journal (`reconcile` in `src/frontier/journal.ts`):
 one pass that gathers the requests and the terminals, refuses a log no crash can leave,
 and marks every request that has no terminal.
 */
module Frontier {
  import opened Wrappers
  import opened Finite

  /** A call is named by its identifier; a payload that does not validate is malformed. */
  datatype Event = Request(call: nat) | Response(call: nat) | Incomplete(call: nat) | Malformed

  predicate IsTerminal(e: Event) {
    e.Response? || e.Incomplete?
  }

  datatype Ledger = Ledger(requests: seq<nat>, terminals: set<nat>)

  /** One round of the scan; the error is the position of the damage. */
  function Account(l: Ledger, e: Event, at: nat): Result<Ledger, nat> {
    if e.Malformed? then Err(at)
    else if e.Request? then
      Ok(if e.call in l.requests then l else l.(requests := l.requests + [e.call]))
    else if e.call !in l.requests then Err(at)
    else if e.call in l.terminals then Err(at)
    else Ok(l.(terminals := l.terminals + {e.call}))
  }

  function Scan(log: seq<Event>): Result<Ledger, nat> {
    if log == [] then Ok(Ledger([], {}))
    else
      match Scan(log[..|log| - 1])
      case Err(at) => Err(at)
      case Ok(l) => Account(l, log[|log| - 1], |log| - 1)
  }

  /** The requests without a terminal, in the order they were made. */
  function Open(requests: seq<nat>, terminals: set<nat>): seq<nat> {
    if requests == [] then []
    else
      var last := requests[|requests| - 1];
      Open(requests[..|requests| - 1], terminals) + (if last in terminals then [] else [last])
  }

  function Orphans(log: seq<Event>): Result<seq<nat>, nat> {
    match Scan(log)
    case Err(at) => Err(at)
    case Ok(l) => Ok(Open(l.requests, l.terminals))
  }

  /** The markers a reconciliation appends. */
  function Markers(orphans: seq<nat>): seq<Event> {
    seq(|orphans|, i requires 0 <= i < |orphans| => Incomplete(orphans[i]))
  }

  /** `reconcile`'s scan and its orphans. */
  method Reconcile(log: seq<Event>) returns (r: Result<seq<nat>, nat>)
    ensures r == Orphans(log)
  {
    var requests: seq<nat> := [];
    var terminals: set<nat> := {};
    var i := 0;
    assert log[..0] == [];
    while i < |log|
      invariant i <= |log|
      invariant Scan(log[..i]) == Ok(Ledger(requests, terminals))
    {
      var e := log[i];
      ScanOne(log, i);
      if e.Malformed? {
        ScanStops(log, i);
        return Err(i);
      }
      if e.Request? {
        if e.call !in requests { requests := requests + [e.call]; }
      } else {
        if e.call !in requests || e.call in terminals {
          ScanStops(log, i);
          return Err(i);
        }
        terminals := terminals + {e.call};
      }
      i := i + 1;
    }
    assert log[..i] == log;
    var orphans: seq<nat> := [];
    var k := 0;
    assert requests[..0] == [];
    while k < |requests|
      invariant k <= |requests| && orphans == Open(requests[..k], terminals)
    {
      assert requests[..k + 1][..k] == requests[..k];
      if requests[k] !in terminals { orphans := orphans + [requests[k]]; }
      k := k + 1;
    }
    assert requests[..k] == requests;
    r := Ok(orphans);
  }

  lemma ScanOne(log: seq<Event>, i: nat)
    requires i < |log|
    ensures Scan(log[..i + 1]) == match Scan(log[..i]) case Err(at) => Err(at) case Ok(l) => Account(l, log[i], i)
  {
    assert log[..i + 1][..i] == log[..i];
  }

  lemma {:induction false} ScanStops(log: seq<Event>, i: nat)
    requires i < |log| && Scan(log[..i + 1]) == Err(i)
    ensures Scan(log) == Err(i)
  {
    if i + 1 == |log| {
      assert log[..i + 1] == log;
    } else {
      assert log[..|log| - 1][..i + 1] == log[..i + 1];
      ScanStops(log[..|log| - 1], i);
    }
  }

  // --- what a sound log is --------------------------------------------------------------------------

  ghost predicate Requested(log: seq<Event>, call: nat) {
    Request(call) in log
  }

  ghost predicate Terminated(log: seq<Event>, call: nat) {
    Response(call) in log || Incomplete(call) in log
  }

  /** Nothing malformed; a terminal comes after its request and is its call's only one. */
  ghost predicate WellFormed(log: seq<Event>) {
    forall i :: 0 <= i < |log| ==>
      && !log[i].Malformed?
      && (IsTerminal(log[i]) ==> Requested(log[..i], log[i].call) && !Terminated(log[..i], log[i].call))
  }

  /** How many terminals a call has. */
  ghost function Terminals(log: seq<Event>, call: nat): nat {
    multiset(log)[Response(call)] + multiset(log)[Incomplete(call)]
  }

  lemma WellFormedPrefix(log: seq<Event>, n: nat)
    requires WellFormed(log) && n <= |log|
    ensures WellFormed(log[..n])
  {
    forall i | 0 <= i < n
      ensures !log[i].Malformed?
      ensures IsTerminal(log[i]) ==> Requested(log[..n][..i], log[i].call) && !Terminated(log[..n][..i], log[i].call)
    {
      assert log[..n][..i] == log[..i];
    }
  }

  lemma WellFormedMore(log: seq<Event>, e: Event)
    ensures WellFormed(log + [e]) <==>
              && WellFormed(log) && !e.Malformed?
              && (IsTerminal(e) ==> Requested(log, e.call) && !Terminated(log, e.call))
  {
    var longer := log + [e];
    assert longer[..|log|] == log;
    if WellFormed(longer) {
      WellFormedPrefix(longer, |log|);
      assert longer[|log|] == e;
    }
    if WellFormed(log) {
      forall i | 0 <= i < |log| ensures longer[i] == log[i] && longer[..i] == log[..i] {
      }
    }
  }

  ghost predicate Faithful(l: Ledger, log: seq<Event>) {
    && (forall c :: c in l.requests <==> Requested(log, c))
    && (forall c :: c in l.terminals <==> Terminated(log, c))
    && NoDuplicates(l.requests)
  }

  /** The scan accepts exactly the well-formed logs, and knows their requests and terminals. */
  lemma {:induction false} ScanIff(log: seq<Event>)
    ensures Scan(log).Ok? <==> WellFormed(log)
    ensures Scan(log).Ok? ==> Faithful(Scan(log).value, log)
  {
    if log != [] {
      var shorter, e := log[..|log| - 1], log[|log| - 1];
      ScanIff(shorter);
      assert log == shorter + [e];
      WellFormedMore(shorter, e);
    }
  }

  lemma {:induction false} OpenIs(requests: seq<nat>, terminals: set<nat>)
    requires NoDuplicates(requests)
    ensures forall c :: c in Open(requests, terminals) <==> c in requests && c !in terminals
    ensures NoDuplicates(Open(requests, terminals))
  {
    if requests != [] {
      var last, shorter := requests[|requests| - 1], requests[..|requests| - 1];
      var rest := Open(shorter, terminals);
      OpenIs(shorter, terminals);
      assert requests == shorter + [last];
      forall i | 0 <= i < |rest| ensures rest[i] != last {
        assert rest[i] in shorter;
      }
    }
  }

  /** Reconciliation reports corruption exactly of a log that is not well formed. */
  lemma CorruptIff(log: seq<Event>)
    ensures Orphans(log).Ok? <==> WellFormed(log)
    ensures Orphans(log).Ok? ==> forall c :: c in Orphans(log).value <==> Requested(log, c) && !Terminated(log, c)
    ensures Orphans(log).Ok? ==> NoDuplicates(Orphans(log).value)
  {
    ScanIff(log);
    if Scan(log).Ok? {
      OpenIs(Scan(log).value.requests, Scan(log).value.terminals);
    }
  }

  /** The position reported is where the damage begins: the log is well formed up to it, and not with it. */
  lemma {:induction false} FirstDamage(log: seq<Event>)
    requires Orphans(log).Err?
    ensures var at := Orphans(log).error;
            at < |log| && WellFormed(log[..at]) && !WellFormed(log[..at + 1])
  {
    hide WellFormed;
    var shorter := log[..|log| - 1];
    ScanIff(shorter);
    if Scan(shorter).Err? {
      FirstDamage(shorter);
      var at := Orphans(log).error;
      assert shorter[..at] == log[..at] && shorter[..at + 1] == log[..at + 1];
    } else {
      ScanIff(log);
      assert log[..|log|] == log;
    }
  }

  /** The one call was requested before the other ever was. */
  ghost predicate Earlier(log: seq<Event>, a: nat, b: nat) {
    exists p :: 0 <= p < |log| && log[p] == Request(a) && !Requested(log[..p + 1], b)
  }

  lemma EarlierMore(log: seq<Event>, e: Event, a: nat, b: nat)
    requires Earlier(log, a, b) || (Requested(log, a) && !Requested(log, b) && a != b && e == Request(b))
    ensures Earlier(log + [e], a, b)
  {
    var longer := log + [e];
    var p :| 0 <= p < |log| && log[p] == Request(a) && !Requested(log[..p + 1], b);
    assert longer[p] == Request(a) && longer[..p + 1] == log[..p + 1];
  }

  lemma {:induction false} ScannedInOrder(log: seq<Event>, i: nat, j: nat)
    requires Scan(log).Ok? && i < j < |Scan(log).value.requests|
    ensures Earlier(log, Scan(log).value.requests[i], Scan(log).value.requests[j])
  {
    hide Earlier;
    var shorter, e := log[..|log| - 1], log[|log| - 1];
    var before, requests := Scan(shorter).value.requests, Scan(log).value.requests;
    ScanIff(shorter);
    assert log == shorter + [e];
    if j < |before| {
      ScannedInOrder(shorter, i, j);
    } else {
      assert requests[i] in before && requests[j] !in before;
    }
    EarlierMore(shorter, e, requests[i], requests[j]);
  }

  /** Leaving the terminated out keeps the order. */
  lemma {:induction false} OpenInOrder(requests: seq<nat>, terminals: set<nat>, i: nat, j: nat) returns (a: nat, b: nat)
    requires i < j < |Open(requests, terminals)|
    ensures a < b < |requests| && requests[a] == Open(requests, terminals)[i] && requests[b] == Open(requests, terminals)[j]
  {
    var n := |requests| - 1;
    var before := Open(requests[..n], terminals);
    if j < |before| {
      a, b := OpenInOrder(requests[..n], terminals, i, j);
    } else {
      b := n;
      a := OpenHolds(requests[..n], terminals, i);
    }
  }

  lemma {:induction false} OpenHolds(requests: seq<nat>, terminals: set<nat>, i: nat) returns (a: nat)
    requires i < |Open(requests, terminals)|
    ensures a < |requests| && requests[a] == Open(requests, terminals)[i]
  {
    var n := |requests| - 1;
    if i < |Open(requests[..n], terminals)| {
      a := OpenHolds(requests[..n], terminals, i);
    } else {
      a := n;
    }
  }

  /** The orphans come in the order their requests were made, and so do the markers. */
  lemma OrphansInOrder(log: seq<Event>, i: nat, j: nat)
    requires Orphans(log).Ok? && i < j < |Orphans(log).value|
    ensures Earlier(log, Orphans(log).value[i], Orphans(log).value[j])
  {
    hide Earlier, Scan, Open;
    var l := Scan(log).value;
    var a, b := OpenInOrder(l.requests, l.terminals, i, j);
    ScannedInOrder(log, a, b);
  }

  // --- after the markers land --------------------------------------------------------------------------

  lemma {:induction false} MarkersKeepOrder(log: seq<Event>, orphans: seq<nat>)
    requires WellFormed(log)
    requires forall i :: 0 <= i < |orphans| ==> Requested(log, orphans[i]) && !Terminated(log, orphans[i])
    requires NoDuplicates(orphans)
    ensures WellFormed(log + Markers(orphans))
    ensures forall c :: Requested(log + Markers(orphans), c) <==> Requested(log, c)
    ensures forall c :: Terminated(log + Markers(orphans), c) <==> Terminated(log, c) || c in orphans
  {
    hide WellFormed;
    if orphans == [] {
      assert log + Markers(orphans) == log;
    } else {
      var last, shorter := orphans[|orphans| - 1], orphans[..|orphans| - 1];
      MarkersKeepOrder(log, shorter);
      var before := log + Markers(shorter);
      assert log + Markers(orphans) == before + [Incomplete(last)];
      WellFormedMore(before, Incomplete(last));
    }
  }

  lemma {:induction false} AtMostOneTerminal(log: seq<Event>, call: nat)
    requires WellFormed(log)
    ensures Terminals(log, call) == if Terminated(log, call) then 1 else 0
  {
    if log != [] {
      var shorter, e := log[..|log| - 1], log[|log| - 1];
      assert log == shorter + [e];
      WellFormedMore(shorter, e);
      AtMostOneTerminal(shorter, call);
    }
  }

  lemma HasFirst(calls: seq<nat>)
    requires calls != []
    ensures calls[0] in calls
  {
  }

  /**
   Once the markers of a reconciliation have landed, every request has exactly one terminal,
   the log is still well formed, and a second reconciliation has nothing to append.
   */
  lemma ReconciledIsClosed(log: seq<Event>)
    requires WellFormed(log)
    ensures Orphans(log).Ok?
    ensures var after := log + Markers(Orphans(log).value);
            && WellFormed(after) && Orphans(after) == Ok([])
            && forall c :: Requested(after, c) ==> Terminals(after, c) == 1
  {
    hide WellFormed, Scan, Open, Terminals, Requested, Terminated;
    CorruptIff(log);
    var orphans := Orphans(log).value;
    var after := log + Markers(orphans);
    MarkersKeepOrder(log, orphans);
    CorruptIff(after);
    if Orphans(after).value != [] {
      HasFirst(Orphans(after).value);
    }
    forall c | Requested(after, c) ensures Terminals(after, c) == 1 {
      AtMostOneTerminal(after, c);
    }
  }

  // --- the gate, its journal and crashes -----------------------------------------------------------------

  /**
   The gate between its awaits. `durable` is what a crash keeps; of `pending`, the writer's
   batch, a crash keeps some prefix. `begun` calls have their request appended; `started`
   ones may be completed; a `completing` call has been handed to `complete`, once.
   */
  datatype Gate = Gate(
    running: bool, durable: seq<Event>, pending: seq<Event>, begun: set<nat>, started: set<nat>,
    completing: set<nat>)

  datatype Action =
    | Begin(call: nat)            // `begin` up to its append
    | Begun(call: nat)            // its barrier succeeded
    | Complete(call: nat)         // `complete` up to its append
    | Completed(call: nat)        // its terminal is durable
    | Flush(n: nat)
    | Crash(survivors: nat)
    | Boot                        // reconcile, then serve

  function Journal(g: Gate): seq<Event> {
    g.durable + g.pending
  }

  ghost function Step(g: Gate, a: Action): Option<Gate> {
    match a
    case Begin(call) =>
      // A call identifier is fresh.
      if !g.running || Requested(Journal(g), call) then None
      else Some(g.(pending := g.pending + [Request(call)], begun := g.begun + {call}))
    case Begun(call) =>
      if !g.running || call !in g.begun || !Requested(g.durable, call) then None
      else Some(g.(begun := g.begun - {call}, started := g.started + {call}))
    case Complete(call) =>
      if !g.running || call !in g.started || call in g.completing then None
      else Some(g.(pending := g.pending + [Response(call)], completing := g.completing + {call}))
    case Completed(call) =>
      if !g.running || call !in g.completing || Response(call) !in g.durable then None
      else Some(g.(started := g.started - {call}))
    case Flush(n) =>
      if !g.running || n > |g.pending| then None
      else Some(g.(durable := g.durable + g.pending[..n], pending := g.pending[n..]))
    case Crash(survivors) =>
      if survivors > |g.pending| then None
      else Some(Gate(false, g.durable + g.pending[..survivors], [], {}, {}, {}))
    case Boot =>
      if g.running || Orphans(g.durable).Err? then None
      else Some(g.(running := true, pending := Markers(Orphans(g.durable).value)))
  }

  ghost function Execute(actions: seq<Action>): Option<Gate> {
    if actions == [] then Some(Gate(false, [], [], {}, {}, {}))
    else
      match Execute(actions[..|actions| - 1])
      case None => None
      case Some(g) => Step(g, actions[|actions| - 1])
  }

  ghost predicate GateOk(g: Gate) {
    && WellFormed(Journal(g))
    && (!g.running ==> g.pending == [] && g.begun == {} && g.started == {} && g.completing == {})
    && g.begun !! g.started && g.begun !! g.completing
    && (forall c :: c in g.begun + g.started + g.completing ==> Requested(Journal(g), c))
    && (forall c :: c in g.begun + g.started - g.completing ==> !Terminated(Journal(g), c))
  }

  lemma RequestedMore(log: seq<Event>, e: Event, c: nat)
    ensures Requested(log + [e], c) <==> Requested(log, c) || e == Request(c)
    ensures Terminated(log + [e], c) <==> Terminated(log, c) || e == Response(c) || e == Incomplete(c)
  {
  }

  lemma {:induction false} TerminatedIsRequested(log: seq<Event>, c: nat)
    requires WellFormed(log) && Terminated(log, c)
    ensures Requested(log, c)
  {
    var i :| 0 <= i < |log| && IsTerminal(log[i]) && log[i].call == c;
    assert Requested(log[..i], c);
  }

  /** What the gate holds after one more event of its own. */
  lemma AppendKeeps(g: Gate, e: Event, next: Gate)
    requires GateOk(g) && next.durable == g.durable && next.pending == g.pending + [e] && g.running && next.running
    requires (e.Request? && !Requested(Journal(g), e.call) && next.begun == g.begun + {e.call}
              && next.started == g.started && next.completing == g.completing)
          || (e.Response? && e.call in g.started && e.call !in g.completing && next.begun == g.begun
              && next.started == g.started && next.completing == g.completing + {e.call})
    ensures GateOk(next)
  {
    hide WellFormed, Requested, Terminated;
    assert Journal(next) == Journal(g) + [e];
    WellFormedMore(Journal(g), e);
    if e.Request? && Terminated(Journal(g), e.call) {
      TerminatedIsRequested(Journal(g), e.call);
    }
    forall c ensures Requested(Journal(next), c) <==> Requested(Journal(g), c) || e == Request(c)
      ensures Terminated(Journal(next), c) <==> Terminated(Journal(g), c) || e == Response(c) || e == Incomplete(c)
    {
      RequestedMore(Journal(g), e, c);
    }
  }

  lemma StepKeeps(g: Gate, a: Action)
    requires GateOk(g) && Step(g, a).Some?
    ensures GateOk(Step(g, a).value)
  {
    hide WellFormed, Requested, Terminated, Orphans;
    var next := Step(g, a).value;
    match a
    case Begin(call) => AppendKeeps(g, Request(call), next);
    case Begun(call) =>
    case Complete(call) => AppendKeeps(g, Response(call), next);
    case Completed(call) =>
    case Flush(n) =>
      assert g.pending[..n] + g.pending[n..] == g.pending;
      assert Journal(next) == Journal(g);
    case Crash(survivors) => CrashKeeps(g, survivors);
    case Boot => BootKeeps(g);
  }

  lemma CrashKeeps(g: Gate, survivors: nat)
    requires GateOk(g) && survivors <= |g.pending|
    ensures GateOk(Gate(false, g.durable + g.pending[..survivors], [], {}, {}, {}))
  {
    hide WellFormed, Requested, Terminated;
    var durable := g.durable + g.pending[..survivors];
    assert durable + [] == Journal(g)[..|g.durable| + survivors];
    WellFormedPrefix(Journal(g), |g.durable| + survivors);
  }

  lemma BootKeeps(g: Gate)
    requires GateOk(g) && !g.running && Orphans(g.durable).Ok?
    ensures GateOk(g.(running := true, pending := Markers(Orphans(g.durable).value)))
  {
    hide WellFormed, Requested, Terminated, Orphans;
    assert Journal(g) == g.durable;
    CorruptIff(g.durable);
    MarkersKeepOrder(g.durable, Orphans(g.durable).value);
  }

  lemma {:induction false} ExecuteKeeps(actions: seq<Action>)
    requires Execute(actions).Some?
    ensures GateOk(Execute(actions).value)
  {
    hide GateOk, Step;
    if actions == [] {
      EmptyGateIsOk();
    } else {
      var shorter := actions[..|actions| - 1];
      ExecuteKeeps(shorter);
      StepKeeps(Execute(shorter).value, actions[|actions| - 1]);
    }
  }

  lemma EmptyGateIsOk()
    ensures GateOk(Gate(false, [], [], {}, {}, {}))
  {
  }

  /**
   Over every run of concurrent begins and completes, cut by a crash at any await: boot
   reconciliation never reports corruption, and once its markers have landed every request
   has exactly one terminal and another reconciliation would append nothing.
   */
  lemma CrashedBootsClean(actions: seq<Action>, survivors: nat)
    requires Execute(actions + [Crash(survivors)]).Some?
    ensures var g := Execute(actions + [Crash(survivors)]).value;
            && Step(g, Boot).Some?
            && var booted := Step(g, Boot).value;
               && Orphans(Journal(booted)) == Ok([])
               && Step(booted, Flush(|booted.pending|)).Some?
               && Step(booted, Flush(|booted.pending|)).value.durable == Journal(booted)
               && forall c :: Requested(Journal(booted), c) ==> Terminals(Journal(booted), c) == 1
  {
    hide WellFormed, Requested, Terminals, Orphans, Execute;
    var crashed := actions + [Crash(survivors)];
    ExecuteKeeps(crashed);
    var g := Execute(crashed).value;
    CrashedIsDown(actions, survivors);
    assert Journal(g) == g.durable;
    ReconciledIsClosed(g.durable);
    CorruptIff(g.durable);
    var booted := Step(g, Boot).value;
    assert Journal(booted) == g.durable + Markers(Orphans(g.durable).value);
    assert booted.pending[..|booted.pending|] == booted.pending;
  }

  lemma CrashedIsDown(actions: seq<Action>, survivors: nat)
    requires Execute(actions + [Crash(survivors)]).Some?
    ensures !Execute(actions + [Crash(survivors)]).value.running
  {
    hide Orphans, Requested;
    var crashed := actions + [Crash(survivors)];
    assert crashed[..|crashed| - 1] == actions;
  }

  /** No call ever gets a second terminal, and none gets one before its request, in any run. */
  lemma OneTerminalPerCall(actions: seq<Action>, call: nat)
    requires Execute(actions).Some?
    ensures var log := Journal(Execute(actions).value);
            && Terminals(log, call) <= 1 && (Terminals(log, call) == 1 ==> Requested(log, call))
  {
    hide Execute, WellFormed, Requested, Terminated, Terminals;
    ExecuteKeeps(actions);
    var log := Journal(Execute(actions).value);
    AtMostOneTerminal(log, call);
    if Terminated(log, call) {
      TerminatedIsRequested(log, call);
    }
  }

  /** The actions of one call from its request to its terminal, each append made durable before the next step. */
  function OneCall(g: Gate, call: nat): seq<Action> {
    [Begin(call), Flush(|g.pending| + 1), Begun(call), Complete(call), Flush(1), Completed(call)]
  }

  ghost function Run(g: Gate, actions: seq<Action>): Option<Gate>
    decreases |actions|
  {
    if actions == [] then Some(g)
    else
      match Step(g, actions[0])
      case None => None
      case Some(next) => Run(next, actions[1..])
  }

  /**
   One call, alone. From any running gate a fresh call goes through every step: its request
   and then its response become durable behind everything appended before, and nothing else
   is left of it but that it can never be completed again.
   */
  lemma CallAlone(g: Gate, call: nat)
    requires GateOk(g) && g.running && !Requested(Journal(g), call)
    ensures var after := Run(g, OneCall(g, call));
            && after == Some(g.(durable := Journal(g) + [Request(call), Response(call)], pending := [],
                                completing := g.completing + {call}))
            && Step(after.value, Complete(call)).None? && Step(after.value, Begin(call)).None?
  {
    hide WellFormed, Terminated, Run;
    var begun := g.(pending := g.pending + [Request(call)], begun := g.begun + {call});
    var kept := begun.(durable := Journal(g) + [Request(call)], pending := []);
    var started := kept.(begun := g.begun, started := g.started + {call});
    var completing := started.(pending := [Response(call)], completing := g.completing + {call});
    var answered := completing.(durable := Journal(g) + [Request(call), Response(call)], pending := []);
    Unheld(g, call);
    assert begun.durable + begun.pending == kept.durable && begun.pending[..|g.pending| + 1] == begun.pending;
    assert begun.pending[|g.pending| + 1..] == [];
    assert Requested(kept.durable, call) by { assert kept.durable[|Journal(g)|] == Request(call); }
    assert kept.begun - {call} == g.begun;
    assert started.pending + [Response(call)] == [Response(call)];
    assert completing.pending[..1] == [Response(call)] && completing.pending[1..] == [];
    assert kept.durable + [Response(call)] == answered.durable;
    assert answered.durable[|Journal(g)| + 1] == Response(call) && answered.durable[|Journal(g)|] == Request(call);
    assert answered.started - {call} == g.started;
    assert answered.durable + answered.pending == answered.durable;
    RunSix(g, OneCall(g, call), begun, kept, started, completing, answered);
  }

  lemma Unheld(g: Gate, call: nat)
    requires GateOk(g) && !Requested(Journal(g), call)
    ensures call !in g.begun && call !in g.started && call !in g.completing
  {
    hide WellFormed, Requested, Terminated;
    assert call in g.begun + g.started + g.completing ==> Requested(Journal(g), call);
  }

  lemma RunSix(g: Gate, a: seq<Action>, g1: Gate, g2: Gate, g3: Gate, g4: Gate, g5: Gate)
    requires |a| == 6
    requires Step(g, a[0]) == Some(g1) && Step(g1, a[1]) == Some(g2) && Step(g2, a[2]) == Some(g3)
    requires Step(g3, a[3]) == Some(g4) && Step(g4, a[4]) == Some(g5)
    ensures Run(g, a) == Step(g5, a[5])
  {
    hide Step;
    var b, c, d, e, f := a[1..], a[2..], a[3..], a[4..], a[5..];
    assert b[1..] == c && c[1..] == d && d[1..] == e && e[1..] == f && f[1..] == [];
    assert Run(g, a) == Run(g1, b);
    assert Run(g1, b) == Run(g2, c);
    assert Run(g2, c) == Run(g3, d);
    assert Run(g3, d) == Run(g4, e);
    assert Run(g4, e) == Run(g5, f);
    if Step(g5, a[5]).Some? {
      assert Run(Step(g5, a[5]).value, []) == Step(g5, a[5]);
    }
  }
}
