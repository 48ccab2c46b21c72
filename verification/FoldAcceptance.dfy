/**
 Which event the fold accepts next, and what it then shows: for every kind of event, an
 if-and-only-if on the events before it.
 */
module FoldAcceptance {
  import opened Wrappers
  import opened Contracts
  import opened Events
  import opened Groups
  import opened Surfaces
  import opened FoldSteps
  import opened FoldInvariant
  import opened Conservation
  import opened Handlers
  import opened Closers
  import opened FoldRuns
  import opened FoldHistory

  /** The state behind an accepted run. */
  ghost function Folded(events: seq<Event>): FoldState
    requires Play(events).Some?
  {
    Play(events).value.state
  }

  /** The event is offered as the next of an accepted run. */
  ghost predicate Offered(events: seq<Event>, e: Event) {
    Play(events).Some? && e.source.position == |events|
  }

  /** The offered event is accepted. */
  ghost predicate Taken(events: seq<Event>, e: Event) {
    Play(events + [e]).Some?
  }

  lemma Offering(events: seq<Event>, e: Event) returns (s: FoldState)
    requires Offered(events, e)
    ensures s == Register(Folded(events), e) && Ready(s, e) && Traced(s, events) && IndexOk(events + [e], s.index)
    ensures Taken(events, e) <==> Process(s, e).Some?
    ensures Taken(events, e) ==> Folded(events + [e]) == Recorded(Process(s, e).value, e)
  {
    hide Ready, Traced, Process, IndexOk, Held, Parts, Exchanged, RemovedBy, DroppedBy;
    var l := Play(events).value;
    s := Register(l.state, e);
    RunKeeps(events);
    RunTraced(events);
    TracedFrames(l.state, s, events);
    RegisteredReady(l, events, e);
    assert (events + [e])[..|events|] == events;
  }

  // --- turns and perceptions ------------------------------------------------------------------

  /** A turn opens if and only if none is open. */
  lemma TurnStartIff(events: seq<Event>, e: Event)
    requires Offered(events, e) && e.payload.TurnStart?
    ensures Taken(events, e) <==> OpenedBy(events).None?
  {
    hide Ready, Play, OpenTraced, ConfigTraced, IndexOk;
    var s := Offering(events, e);
  }

  /** A perception is accepted if and only if it is the open turn's first, of its number and its world. */
  lemma PerceptionIff(events: seq<Event>, e: Event)
    requires Offered(events, e) && e.payload.WorldPerception?
    ensures var p := e.payload;
            Taken(events, e) <==>
              && OpenedBy(events).Some? && OpenedBy(events).value.payload == TurnStart(p.turn, p.range)
              && p.value.range == p.range && PerceivedIn(TurnEvents(events)).None?
  {
    hide Ready, Play, BuffersTraced, Lined, ConfigTraced, IndexOk;
    var s := Offering(events, e);
  }

  // --- requests -----------------------------------------------------------------------------------

  /** The request is of the open turn, and has neither been answered nor refused in it. */
  ghost predicate Unanswered(events: seq<Event>, request: RequestId) {
    && OpenedBy(events).Some? && OpenedBy(events).value.payload.TurnStart?
    && OpenedBy(events).value.payload.turn == request.turn
    && AnsweredIn(TurnEvents(events), request).None? && !RefusedIn(TurnEvents(events), request)
  }

  lemma RefusedIff(events: seq<Event>, e: Event)
    requires Offered(events, e) && e.payload.RequestRefused?
    ensures Taken(events, e) <==> Unanswered(events, e.payload.request)
  {
    hide Ready, Play, PerceptionTraced, Lined, ConfigTraced, IndexOk, BufferOf, PutBuffer, AnsweredIn, RefusedIn;
    var s := Offering(events, e);
    if s.open.Some? && s.open.value.turn == e.payload.request.turn {
      BufferIsTraced(s.open.value, events, e.payload.request);
    }
  }

  /** A request of a turn is answered at most once, by an assistant message that repeats no call identifier. */
  lemma AnswerIff(events: seq<Event>, e: Event)
    requires Offered(events, e) && e.payload.AssistantMessage?
    ensures Taken(events, e) <==> Unanswered(events, e.payload.request) && DistinctCalls(e.payload.toolCalls)
  {
    hide Ready, Play, PerceptionTraced, Lined, ConfigTraced, IndexOk, BufferOf, PutBuffer, AnsweredIn, RefusedIn, DistinctCalls;
    var s := Offering(events, e);
    if s.open.Some? && s.open.value.turn == e.payload.request.turn {
      BufferIsTraced(s.open.value, events, e.payload.request);
    }
  }

  /** The call is one the request's answer advertised, in the open turn. */
  ghost predicate Advertised(events: seq<Event>, request: RequestId, callId: string) {
    && OpenedBy(events).Some? && OpenedBy(events).value.payload.TurnStart?
    && OpenedBy(events).value.payload.turn == request.turn
    && var answer := AnsweredIn(TurnEvents(events), request);
       && answer.Some? && answer.value.payload.AssistantMessage?
       && exists i :: 0 <= i < |answer.value.payload.toolCalls| && answer.value.payload.toolCalls[i].id == callId
  }

  /** A call is recorded if and only if its request's answer advertised exactly it, and once. */
  lemma ToolCallIff(events: seq<Event>, e: Event)
    requires Offered(events, e) && e.payload.ToolCalled?
    ensures var p := e.payload;
            Taken(events, e) <==>
              && p.turn == p.request.turn && Advertised(events, p.request, p.call.id)
              && p.call in AnsweredIn(TurnEvents(events), p.request).value.payload.toolCalls
              && !CalledIn(TurnEvents(events), p.request, p.call.id)
  {
    hide Ready, Play, PerceptionTraced, Lined, ConfigTraced, IndexOk, BufferOf, PutBuffer, AnsweredIn, RefusedIn, HasCall,
      HasResult, CalledIn, ResultIn;
    var s := Offering(events, e);
    var p := e.payload;
    if s.open.Some? && s.open.value.turn == p.request.turn {
      BufferIsTraced(s.open.value, events, p.request);
      var answer := AnsweredIn(TurnEvents(events), p.request);
      if answer.Some? && p.call in answer.value.payload.toolCalls {
        var i :| 0 <= i < |answer.value.payload.toolCalls| && answer.value.payload.toolCalls[i] == p.call;
        assert answer.value.payload.toolCalls[i].id == p.call.id;
      }
    }
  }

  /** The result's message answers the call it names. */
  predicate Answering(p: Payload)
    requires p.ToolResult?
  {
    p.message.Tool? && p.message.toolCallId == p.callId
  }

  /** The result is one of the open turn's own. */
  ghost predicate OfOpenTurn(events: seq<Event>, p: Payload)
    requires p.ToolResult?
  {
    && OpenedBy(events).Some? && OpenedBy(events).value.payload.TurnStart?
    && OpenedBy(events).value.payload.turn == p.turn == p.request.turn
  }

  /** In its own turn a result is accepted once, for an advertised call, and a real one only after its call. */
  lemma OpenResultIff(events: seq<Event>, e: Event)
    requires Offered(events, e) && e.payload.ToolResult? && OfOpenTurn(events, e.payload)
    ensures var p, turn := e.payload, TurnEvents(events);
            Taken(events, e) <==>
              && Answering(p) && Advertised(events, p.request, p.callId) && !ResultIn(turn, p.request, p.callId)
              && (p.synthetic || CalledIn(turn, p.request, p.callId))
  {
    hide Ready, Play, PerceptionTraced, Lined, ConfigTraced, IndexOk, BufferOf, PutBuffer, AnsweredIn, RefusedIn, HasCall,
      HasResult, CalledIn, ResultIn;
    var s := Offering(events, e);
    var p := e.payload;
    BufferIsTraced(s.open.value, events, p.request);
  }

  /** The first recovery entry of the request's turn, the one a late result goes to. */
  ghost predicate Recovers(recovery: seq<RecoveryEntry>, p: Payload, at: nat)
    requires p.ToolResult?
  {
    && at < |recovery| && recovery[at].turn == p.turn && recovery[at].request == p.request
    && forall i :: 0 <= i < at ==> !(recovery[i].turn == p.turn && recovery[i].request == p.request)
  }

  lemma {:induction false} FindRecoveryIs(recovery: seq<RecoveryEntry>, p: Payload, at: nat)
    requires p.ToolResult?
    ensures Recovers(recovery, p, at) ==> FindRecovery(recovery, p.turn, p.request) == at
    ensures FindRecovery(recovery, p.turn, p.request) < |recovery| ==>
              Recovers(recovery, p, FindRecovery(recovery, p.turn, p.request))
  {
    if recovery != [] && !(recovery[0].turn == p.turn && recovery[0].request == p.request) {
      if at > 0 {
        FindRecoveryIs(recovery[1..], p, at - 1);
      } else {
        FindRecoveryIs(recovery[1..], p, 0);
      }
      assert forall i :: 1 <= i < |recovery| ==> recovery[i] == recovery[1..][i - 1];
    }
  }

  /** Every call but this one has its result. */
  ghost predicate LastMissing(x: Exchange, callId: string) {
    forall i :: 0 <= i < |x.advertised| && x.advertised[i].id != callId ==> HasResult(x, x.advertised[i].id)
  }

  /**
   Outside its turn a result is accepted if and only if it is synthetic, not raw, and answers a
   call its recovery entry still misses; the entry's last missing result commits its dialogue,
   for which there must be a surface.
   */
  lemma LateResultIff(events: seq<Event>, e: Event)
    requires Offered(events, e) && e.payload.ToolResult? && !OfOpenTurn(events, e.payload)
    ensures var p, s := e.payload, Folded(events);
            Taken(events, e) <==>
              && Answering(p) && p.synthetic && !p.raw
              && exists at: nat :: Recovers(s.recovery, p, at)
                   && Advertises(s.recovery[at].exchange, p.callId) && !HasResult(s.recovery[at].exchange, p.callId)
                   && (LastMissing(s.recovery[at].exchange, p.callId) ==> LastConfig(events).Some?)
  {
    hide Play, OpenTraced, IndexOk, Ready, Advertises, HasResult, OnRecoveryResult, LastMissing, Recovers, FindRecovery;
    var s := Offering(events, e);
    var p := e.payload;
    var at := FindRecovery(s.recovery, p.turn, p.request);
    OnlyEntry(s.recovery, p);
    NoEntry(s, e);
    assert Taken(events, e) <==>
      Answering(p) && p.synthetic && !p.raw && OnRecoveryResult(s, e, p.turn, p.request, p.callId, p.message).Some? by {
      LateIsRecovery(s, events, e);
    }
    if Answering(p) && p.synthetic && at < |s.recovery| {
      LateResult(s, e, at);
    }
  }

  lemma LateIsRecovery(s: FoldState, events: seq<Event>, e: Event)
    requires Traced(s, events) && e.payload.ToolResult? && !OfOpenTurn(events, e.payload)
    ensures var p := e.payload;
            OnToolResult(s, e, p) ==
              if Answering(p) && p.synthetic && !p.raw then
                OnRecoveryResult(s, e, p.turn, p.request, p.callId, p.message) else None
  {
    hide BuffersTraced, PerceptionTraced, Lined, OnRecoveryResult, OnOpenResult, ConfigTraced;
  }

  lemma OnlyEntry(recovery: seq<RecoveryEntry>, p: Payload)
    requires p.ToolResult?
    ensures var at := FindRecovery(recovery, p.turn, p.request);
            && (at < |recovery| <==> Recovers(recovery, p, at))
            && forall k: nat :: Recovers(recovery, p, k) ==> k == at
  {
    FindRecoveryIs(recovery, p, 0);
    forall k: nat | Recovers(recovery, p, k) ensures k == FindRecovery(recovery, p.turn, p.request) {
      FindRecoveryIs(recovery, p, k);
    }
  }

  lemma NoEntry(s: FoldState, e: Event)
    requires e.payload.ToolResult?
    ensures var p := e.payload;
            FindRecovery(s.recovery, p.turn, p.request) == |s.recovery| ==>
              OnRecoveryResult(s, e, p.turn, p.request, p.callId, p.message).None?
  {
  }

  lemma LateResult(s: FoldState, e: Event, at: nat)
    requires Ready(s, e) && e.payload.ToolResult? && Answering(e.payload) && e.payload.synthetic
    requires at == FindRecovery(s.recovery, e.payload.turn, e.payload.request) && at < |s.recovery|
    ensures var p, x := e.payload, s.recovery[at].exchange;
            OnRecoveryResult(s, e, p.turn, p.request, p.callId, p.message).Some? <==>
              && Advertises(x, p.callId) && !HasResult(x, p.callId)
              && (LastMissing(x, p.callId) ==> s.surface.Some?)
  {
    hide Parts, Held, Once, FindRecovery, DialogueGroup, AppendGroup, Advertises, Gathered, ExchangeOk, IsComplete,
      HasResult, LastMissing;
    var p, x := e.payload, s.recovery[at].exchange;
    if Advertises(x, p.callId) && !HasResult(x, p.callId) {
      RecoveryIsOk(s);
      RecoveryAt(s.recovery, s.index, at);
      AddResultKeeps(x, p.callId, p.message, e, true, p.request, s.index);
      var r := ResultEntry(p.callId, p.message, e.source, true);
      var added := x.(results := x.results + [r]);
      CompletesIff(x, r);
      ExchangeIsOf(added, p.request, s.index);
      if IsComplete(added) && s.surface.Some? {
        Recovered(s, e, at, added, p.turn);
      }
    }
  }

  lemma CompletesIff(x: Exchange, r: ResultEntry)
    ensures IsComplete(x.(results := x.results + [r])) <==> LastMissing(x, r.callId)
  {
    hide HasResult;
    var added := x.(results := x.results + [r]);
    forall id ensures HasResult(added, id) <==> HasResult(x, id) || r.callId == id {
      ResultAdded(x, r, id);
    }
  }

  // --- configuration and facts -------------------------------------------------------------------------

  /** A configuration is accepted if and only if it names its own version, at least 1 and above the last one. */
  lemma ConfigIff(events: seq<Event>, e: Event)
    requires Offered(events, e) && e.payload.SystemMessage?
    ensures var p, last := e.payload, LastConfig(events);
            Taken(events, e) <==>
              && p.config.version == p.version
              && if last.Some? && last.value.payload.SystemMessage? then p.version > last.value.payload.config.version
                 else p.version >= 1
  {
    hide Ready, Play, TurnTraced, IndexOk;
    var s := Offering(events, e);
    assert s.index[e.source] == e by { ReadyIndex(s, e); }
  }

  lemma ReadyIndex(s: FoldState, e: Event)
    requires Ready(s, e)
    ensures e.source in s.index && s.index[e.source] == e && Parts(s) && Fresh(s, e.source)
  {
  }

  /** The surface opens with the latest configuration's own heading, and nothing else changed it. */
  lemma HeadingIsLatest(events: seq<Event>)
    requires Play(events).Some?
    ensures Folded(events).surface.Some? <==> LastConfig(events).Some?
    ensures LastConfig(events).Some? ==>
              && LastConfig(events).value.payload.SystemMessage?
              && var e := LastConfig(events).value;
                 && Folded(events).surface.value != []
                 && Folded(events).surface.value[0] ==
                    SurfaceGroup(e.source, Heading, Folded(events).surface.value[0].turn,
                                 [System(e.payload.config.heading)], [e.source])
                 && Folded(events).config == Some(Configured(e.payload.config, e.source))
  {
    hide Play, TurnTraced, OpenOk, RecoveryOk, PendingOk, SummariesOk, Held, Once, Exchanged, IsBalanced, DistinctIds;
    RunTraced(events);
    RunKeeps(events);
    if LastConfig(events).Some? {
      var s, e := Folded(events), LastConfig(events).value;
      LastConfigIsEvent(events);
      assert GroupOk(s.surface.value[0], s.index);
    }
  }

  lemma {:induction false} LastConfigIsEvent(events: seq<Event>)
    requires LastConfig(events).Some?
    ensures exists i :: 0 <= i < |events| && events[i] == LastConfig(events).value
  {
    var last := |events| - 1;
    if !events[last].payload.SystemMessage? {
      LastConfigIsEvent(events[..last]);
      var i :| 0 <= i < last && events[..last][i] == LastConfig(events).value;
      assert events[i] == LastConfig(events).value;
    }
  }

  /** A configuration rewrites the heading and nothing else. */
  lemma ConfigRewrites(events: seq<Event>, e: Event)
    requires Offered(events, e) && e.payload.SystemMessage? && Taken(events, e) && LastConfig(events).Some?
    ensures var before, after := Folded(events).surface, Folded(events + [e]).surface;
            && before.Some? && before.value != [] && after.Some? && after.value != []
            && after.value[1..] == before.value[1..]
            && after.value[0] == SurfaceGroup(e.source, Heading, 0, [System(e.payload.config.heading)], [e.source])
  {
    hide Ready, Play, TurnTraced, IndexOk;
    var s := Offering(events, e);
  }

  /** The one-line facts: which group one makes, in the turn that is open or outside any. */
  ghost function Fact(events: seq<Event>, e: Event): SurfaceGroup
    requires e.payload.PackageFact? || e.payload.CommitRefused?
  {
    var turn := if OpenedBy(events).Some? && OpenedBy(events).value.payload.TurnStart?
                then OpenedBy(events).value.payload.turn else 0;
    if e.payload.PackageFact? then SurfaceGroup(e.source, Package, turn, [User(e.payload.line)], [e.source])
    else SurfaceGroup(e.source, Refusal, turn, [System(e.payload.line)], [e.source])
  }

  /** A fact is accepted if and only if there is a surface, and then joins it at once. */
  lemma FactIff(events: seq<Event>, e: Event)
    requires Offered(events, e) && (e.payload.PackageFact? || e.payload.CommitRefused?)
    ensures Taken(events, e) <==> LastConfig(events).Some?
    ensures Taken(events, e) ==>
              Folded(events).surface.Some?
              && Folded(events + [e]).surface == Some(Folded(events).surface.value + [Fact(events, e)])
  {
    hide Ready, Play, PerceptionTraced, BuffersTraced, Lined, IndexOk, AppendGroup, Parts, Fresh, Once, Held, TurnEvents,
      ReceiptMatches;
    var s := Offering(events, e);
    if s.surface.Some? {
      ReadyIndex(s, e);
      FactFits(s, e, Fact(events, e));
    }
  }

  lemma FactFits(s: FoldState, e: Event, g: SurfaceGroup)
    requires s.surface.Some? && e.source in s.index && s.index[e.source] == e && Fresh(s, e.source)
    requires g.id == e.source && g.sources == [e.source] && ReceiptMatches(g.kind, e.payload) && g.kind != Heading
    ensures AppendGroup(s.surface.value, g, s.index) == Some(s.surface.value + [g])
  {
    var groups := s.surface.value;
    forall i | 0 <= i < |groups| ensures groups[i].id != g.id {
      assert Ids(groups)[i] == groups[i].id;
    }
  }

  // --- closers ------------------------------------------------------------------------------------------

  /** Every call of the request's answer, if it has one, has its result. */
  ghost predicate Settled(turn: seq<Event>, request: RequestId) {
    var answer := AnsweredIn(turn, request);
    answer.Some? && answer.value.payload.AssistantMessage? ==>
      forall i :: 0 <= i < |answer.value.payload.toolCalls| ==>
        ResultIn(turn, request, answer.value.payload.toolCalls[i].id)
  }

  ghost predicate AllSettled(turn: seq<Event>, number: nat) {
    forall r: RequestId :: r.turn == number ==> Settled(turn, r)
  }

  lemma FindsItself(dialogues: seq<Buffer>, i: nat)
    requires i < |dialogues| && forall j, k :: 0 <= j < k < |dialogues| ==> dialogues[j].request != dialogues[k].request
    ensures BufferOf(dialogues, dialogues[i].request) == dialogues[i]
  {
    FindUnique(dialogues, dialogues[i].request, i);
  }

  lemma CompleteIsSettled(b: Buffer, turn: seq<Event>)
    requires BufferTraced(b, turn)
    ensures (b.exchange.Some? ==> IsComplete(b.exchange.value)) <==> Settled(turn, b.request)
  {
    hide HasCall, HasResult, CalledIn, ResultIn, AnsweredIn, RefusedIn;
  }

  lemma UnbalancedIff(dialogues: seq<Buffer>, number: nat, turn: seq<Event>)
    requires BuffersTraced(dialogues, number, turn) && Lined(dialogues, number, turn)
    ensures Closers.Unbalanced(dialogues) <==> !AllSettled(turn, number)
  {
    hide BufferTraced, IsComplete, Settled, BufferOf, BufferedSources, AnswerSources;
    if Closers.Unbalanced(dialogues) {
      var i :| 0 <= i < |dialogues| && dialogues[i].exchange.Some? && !IsComplete(dialogues[i].exchange.value);
      FindsItself(dialogues, i);
      assert BufferTraced(BufferOf(dialogues, dialogues[i].request), turn);
      CompleteIsSettled(dialogues[i], turn);
    }
    forall r: RequestId | r.turn == number && !Settled(turn, r) ensures Closers.Unbalanced(dialogues) {
      var b := BufferOf(dialogues, r);
      BufferIsOf(dialogues, r);
      assert BufferTraced(b, turn);
      CompleteIsSettled(b, turn);
      BufferIsHeld(dialogues, r);
    }
  }

  lemma BufferIsHeld(dialogues: seq<Buffer>, r: RequestId)
    requires BufferOf(dialogues, r).exchange.Some?
    ensures exists i :: 0 <= i < |dialogues| && dialogues[i] == BufferOf(dialogues, r)
  {
  }

  predicate Succeeds(outcome: Outcome) {
    outcome == Chained || outcome == Waiting
  }

  /**
   A closer is accepted if and only if it names the open turn and, when the turn succeeded,
   every call of its answers has a result.
   */
  lemma CloserIff(events: seq<Event>, e: Event)
    requires Offered(events, e) && e.payload.TurnEnd? && LastConfig(events).Some?
    ensures Taken(events, e) <==>
              && OpenedBy(events).Some? && OpenedBy(events).value.payload.TurnStart?
              && OpenedBy(events).value.payload.turn == e.payload.turn
              && (Succeeds(e.payload.outcome) ==> AllSettled(TurnEvents(events), e.payload.turn))
  {
    hide Play, PerceptionTraced, BuffersTraced, Lined, IndexOk, Parts, Once, Held, Fresh, Closers.Unbalanced, AllSettled,
      OnTurnEnd;
    var s := Offering(events, e);
    CloseIsAllOrNothing(s, e.ignorable, e.payload.turn, e.payload.outcome);
    if s.open.Some? {
      UnbalancedIff(s.open.value.dialogues, s.open.value.turn, TurnEvents(events));
    }
  }

  /** The answers of a turn whose calls all have results, or do not, in the order they came. */
  ghost function AnswersThat(settled: bool, answers: seq<Event>, turn: seq<Event>): seq<Source> {
    if answers == [] then []
    else
      var e := answers[|answers| - 1];
      AnswersThat(settled, answers[..|answers| - 1], turn)
      + (if e.payload.AssistantMessage? && Settled(turn, e.payload.request) == settled then [e.source] else [])
  }

  /** The same, from the receipts alone. */
  ghost function SourcesThat(settled: bool, sources: seq<Source>, index: Index, turn: seq<Event>): seq<Source> {
    if sources == [] then []
    else
      var x := sources[|sources| - 1];
      SourcesThat(settled, sources[..|sources| - 1], index, turn)
      + (if x in index && index[x].payload.AssistantMessage?
            && Settled(turn, index[x].payload.request) == settled then [x] else [])
  }

  lemma SourcesThatOne(settled: bool, sources: seq<Source>, x: Source, index: Index, turn: seq<Event>)
    ensures SourcesThat(settled, sources + [x], index, turn) == SourcesThat(settled, sources, index, turn)
      + (if x in index && index[x].payload.AssistantMessage? && Settled(turn, index[x].payload.request) == settled
         then [x] else [])
  {
    hide Settled;
    assert (sources + [x])[..|sources|] == sources;
  }

  /** The index resolves each of the events to itself. */
  ghost predicate AllIndexed(events: seq<Event>, index: Index) {
    forall i :: 0 <= i < |events| ==> events[i].source in index && index[events[i].source] == events[i]
  }

  lemma {:induction false} AnswersAreSources(settled: bool, answers: seq<Event>, index: Index, turn: seq<Event>)
    requires AllIndexed(answers, index)
    ensures AnswersThat(settled, answers, turn) == SourcesThat(settled, AnswerSources(answers), index, turn)
  {
    hide Settled;
    if answers != [] {
      var shorter, e := answers[..|answers| - 1], answers[|answers| - 1];
      assert forall i :: 0 <= i < |shorter| ==> shorter[i] == answers[i];
      AnswersAreSources(settled, shorter, index, turn);
      if e.payload.AssistantMessage? {
        SourcesThatOne(settled, AnswerSources(shorter), e.source, index, turn);
      } else {
        assert AnswerSources(answers) == AnswerSources(shorter) + [];
        assert AnswerSources(shorter) + [] == AnswerSources(shorter);
      }
    }
  }

  lemma {:induction false} TurnEventsKnown(events: seq<Event>, index: Index)
    requires AllIndexed(events, index)
    ensures AllIndexed(TurnEvents(events), index)
  {
    if events != [] {
      var shorter, e := events[..|events| - 1], events[|events| - 1];
      assert forall i :: 0 <= i < |shorter| ==> shorter[i] == events[i];
      TurnEventsKnown(shorter, index);
      var before, turn := TurnEvents(shorter), TurnEvents(events);
      forall i | 0 <= i < |turn| ensures turn[i].source in index && index[turn[i].source] == turn[i] {
        if i < |before| {
          assert turn[i] == before[i];
        } else {
          assert turn[i] == e;
        }
      }
    }
  }

  lemma {:induction false} GroupsOfMore(xs: seq<Exchange>, x: Exchange, turn: nat)
    requires (forall i :: 0 <= i < |xs| ==> IsComplete(xs[i])) && IsComplete(x)
    ensures Ids(GroupsOf(xs + [x], turn)) == Ids(GroupsOf(xs, turn)) + [x.source]
  {
    hide IsComplete, ResultMessages, ExchangeSources;
    assert forall i :: 0 <= i < |xs| ==> (xs + [x])[i] == xs[i];
  }

  /** The buffered dialogues that are complete are the settled answers; the others wait for recovery. */
  lemma {:induction false} BufferedAre(dialogues: seq<Buffer>, number: nat, turn: seq<Event>, index: Index)
    requires forall i :: 0 <= i < |dialogues| ==>
               dialogues[i].request.turn == number && BufferTraced(dialogues[i], turn) && BufferOk(dialogues[i], number, index)
    ensures Ids(GroupsOf(Completes(dialogues), number)) == SourcesThat(true, BufferedSources(dialogues), index, turn)
    ensures EntrySources(Incompletes(dialogues, number)) == SourcesThat(false, BufferedSources(dialogues), index, turn)
  {
    hide BufferTraced, BufferOk, IsComplete, Settled, GroupsOf;
    if dialogues == [] {
      NoGroups(number);
    } else {
      var shorter, b := dialogues[..|dialogues| - 1], dialogues[|dialogues| - 1];
      BufferedAre(shorter, number, turn, index);
      CompleteIsSettled(b, turn);
      if b.exchange.Some? {
        var x := b.exchange.value;
        BufferAnswers(b, number, index);
        SourcesThatOne(true, BufferedSources(shorter), x.source, index, turn);
        SourcesThatOne(false, BufferedSources(shorter), x.source, index, turn);
        if IsComplete(x) {
          GroupsOfMore(Completes(shorter), x, number);
          assert Incompletes(dialogues, number) == Incompletes(shorter, number);
        } else {
          EntriesMore(Incompletes(shorter, number), RecoveryEntry(number, b.request, x));
          assert Completes(dialogues) == Completes(shorter);
        }
      } else {
        assert BufferedSources(dialogues) == BufferedSources(shorter);
        assert Completes(dialogues) == Completes(shorter) && Incompletes(dialogues, number) == Incompletes(shorter, number);
      }
    }
  }

  lemma NoGroups(number: nat)
    ensures Ids(GroupsOf([], number)) == []
  {
  }

  lemma BufferAnswers(b: Buffer, number: nat, index: Index)
    requires BufferOk(b, number, index) && b.exchange.Some?
    ensures var x := b.exchange.value.source;
            x in index && index[x].payload.AssistantMessage? && index[x].payload.request == b.request
  {
  }

  ghost function EntrySources(recovery: seq<RecoveryEntry>): (r: seq<Source>)
    ensures |r| == |recovery| && forall i :: 0 <= i < |r| ==> r[i] == recovery[i].exchange.source
  {
    seq(|recovery|, i requires 0 <= i < |recovery| => recovery[i].exchange.source)
  }

  lemma EntriesMore(recovery: seq<RecoveryEntry>, r: RecoveryEntry)
    ensures EntrySources(recovery + [r]) == EntrySources(recovery) + [r.exchange.source]
  {
  }

  lemma TracedBuffers(dialogues: seq<Buffer>, number: nat, turn: seq<Event>)
    requires BuffersTraced(dialogues, number, turn) && Lined(dialogues, number, turn)
    ensures forall i :: 0 <= i < |dialogues| ==>
              dialogues[i].request.turn == number && BufferTraced(dialogues[i], turn)
  {
    hide BufferTraced, BufferOf, BufferedSources, AnswerSources;
    forall i | 0 <= i < |dialogues| ensures BufferTraced(dialogues[i], turn) {
      FindsItself(dialogues, i);
      assert BufferTraced(BufferOf(dialogues, dialogues[i].request), turn);
    }
  }

  /** What a closer adds: nothing but the turn's shown perception and then its settled answers' dialogues. */
  ghost predicate Adds(before: seq<SurfaceGroup>, after: seq<SurfaceGroup>, shown: seq<SurfaceGroup>, answers: seq<Source>) {
    && |after| == |before| + |shown| + |answers|
    && after[..|before|] == before && after[|before|..|before| + |shown|] == shown
    && Ids(after[|before| + |shown|..]) == answers
    && forall i :: |before| + |shown| <= i < |after| ==> after[i].kind == Dialogue
  }

  /**
   A close, from the history: the surface gains the group of the turn's perception when that
   had any text, then one dialogue for each settled answer in the order they came, unless the
   closer is an ignorable success; unsettled answers wait for recovery in their order.
   */
  lemma CloserAdds(events: seq<Event>, e: Event)
    requires Offered(events, e) && e.payload.TurnEnd? && LastConfig(events).Some? && Taken(events, e)
    ensures var s, t, turn := Folded(events), Folded(events + [e]), TurnEvents(events);
            var success := Succeeds(e.payload.outcome);
            && s.surface.Some? && t.surface.Some? && t.open.None?
            && Adds(s.surface.value, t.surface.value, Shown(PerceivedIn(turn)),
                    if success && e.ignorable then [] else AnswersThat(true, turn, turn))
            && |s.recovery| <= |t.recovery| && t.recovery[..|s.recovery|] == s.recovery
            && EntrySources(t.recovery[|s.recovery|..]) == if success then [] else AnswersThat(false, turn, turn)
  {
    hide Play, PerceptionTraced, BuffersTraced, Lined, IndexOk, Once, Held, Fresh, OnTurnEnd, CommittedOk, RecoveryOk,
      PendingOk, SummariesOk, DialoguesOk, PerceptionOk, Completes, Incompletes, GroupsOf, Shown, Adds, AllIndexed;
    var s := Offering(events, e);
    NamesTheTurn(s, e);
    var turn, open := TurnEvents(events), s.open.value;
    var number := open.turn;
    CloseCommitsInOrder(s, e.ignorable, number, e.payload.outcome);
    EventsKnown(events, e, s.index);
    TurnEventsKnown(events, s.index);
    AnswersAreSources(true, turn, s.index, turn);
    AnswersAreSources(false, turn, s.index, turn);
    TurnAre(s, open, turn);
    CompletesAdd(s.surface.value, Shown(PerceivedIn(turn)),
                 if Succeeds(e.payload.outcome) && e.ignorable then [] else Completes(open.dialogues), number);
    NoGroups(number);
    PerceptionIsShown(open, turn);
    var added := if Succeeds(e.payload.outcome) then [] else Incompletes(open.dialogues, number);
    assert (s.recovery + added)[|s.recovery|..] == added;
    assert EntrySources([]) == [];
  }

  /**
   Before any configuration there is no surface to commit to. A closer then also needs that no
   settled answer is to be committed: there is none, or the closer is an ignorable success.
   The perception goes unrecorded.
   */
  lemma BareCloserIff(events: seq<Event>, e: Event)
    requires Offered(events, e) && e.payload.TurnEnd? && LastConfig(events).None?
    ensures var turn, success := TurnEvents(events), Succeeds(e.payload.outcome);
            Taken(events, e) <==>
              && OpenedBy(events).Some? && OpenedBy(events).value.payload.TurnStart?
              && OpenedBy(events).value.payload.turn == e.payload.turn
              && (success ==> AllSettled(turn, e.payload.turn))
              && ((success && e.ignorable) || AnswersThat(true, turn, turn) == [])
    ensures Taken(events, e) ==>
              var s, t, turn := Folded(events), Folded(events + [e]), TurnEvents(events);
              && t.open.None? && t.surface.None?
              && |s.recovery| <= |t.recovery| && t.recovery[..|s.recovery|] == s.recovery
              && EntrySources(t.recovery[|s.recovery|..])
                 == if Succeeds(e.payload.outcome) then [] else AnswersThat(false, turn, turn)
  {
    hide Play, PerceptionTraced, BuffersTraced, Lined, IndexOk, Once, Held, Fresh, OnTurnEnd, CommittedOk, RecoveryOk,
      PendingOk, SummariesOk, DialoguesOk, PerceptionOk, Completes, Incompletes, GroupsOf, AllIndexed, AllSettled,
      Closers.Unbalanced, AnswersThat;
    var s := Offering(events, e);
    EventsKnown(events, e, s.index);
    TurnEventsKnown(events, s.index);
    if s.open.Some? && s.open.value.turn == e.payload.turn {
      var turn, open := TurnEvents(events), s.open.value;
      UnbalancedIff(open.dialogues, open.turn, turn);
      AnswersAreSources(true, turn, s.index, turn);
      AnswersAreSources(false, turn, s.index, turn);
      TurnAre(s, open, turn);
      BareCloser(s, open, e.ignorable, e.payload.outcome);
      NoneCompleteIff(Completes(open.dialogues), open.turn);
    } else {
      assert OnTurnEnd(s, e.ignorable, e.payload.turn, e.payload.outcome).None? by {
        OtherTurn(s, e.ignorable, e.payload.turn, e.payload.outcome);
      }
    }
  }

  lemma OtherTurn(s: FoldState, ignorable: bool, turn: nat, outcome: Outcome)
    requires s.open.None? || s.open.value.turn != turn
    ensures OnTurnEnd(s, ignorable, turn, outcome).None?
  {
  }

  lemma NoneCompleteIff(xs: seq<Exchange>, turn: nat)
    requires forall i :: 0 <= i < |xs| ==> IsComplete(xs[i])
    ensures Ids(GroupsOf(xs, turn)) == [] <==> xs == []
  {
    hide IsComplete, ResultMessages, ExchangeSources;
  }

  lemma BareCloser(s: FoldState, open: OpenTurn, ignorable: bool, outcome: Outcome)
    requires s.open == Some(open) && s.surface.None?
    ensures var r, success := OnTurnEnd(s, ignorable, open.turn, outcome), Succeeds(outcome);
            && (r.Some? <==>
                  && (success ==> !Closers.Unbalanced(open.dialogues))
                  && ((success && ignorable) || Completes(open.dialogues) == []))
            && (r.Some? ==>
                  && r.value.open.None? && r.value.surface.None?
                  && |s.recovery| <= |r.value.recovery| && r.value.recovery[..|s.recovery|] == s.recovery
                  && EntrySources(r.value.recovery[|s.recovery|..])
                     == EntrySources(if success then [] else Incompletes(open.dialogues, open.turn)))
  {
    hide Sift, Completes, Incompletes, Closers.Unbalanced;
    var success := Succeeds(outcome);
    SiftFails(open.dialogues, open.turn, success, ignorable);
    if Sift(open.dialogues, open.turn, success, ignorable).Some? {
      SiftIs(open.dialogues, open.turn, success, ignorable);
      var added := if success then [] else Incompletes(open.dialogues, open.turn);
      assert (s.recovery + added)[|s.recovery|..] == added;
    }
  }

  lemma NamesTheTurn(s: FoldState, e: Event)
    requires e.payload.TurnEnd? && OnTurnEnd(s, e.ignorable, e.payload.turn, e.payload.outcome).Some?
    ensures s.open.Some? && s.open.value.turn == e.payload.turn
  {
    hide Sift, CommitTurn;
  }

  lemma EventsKnown(events: seq<Event>, e: Event, index: Index)
    requires IndexOk(events + [e], index)
    ensures AllIndexed(events, index)
  {
    assert forall i :: 0 <= i < |events| ==> (events + [e])[i] == events[i];
  }

  lemma PerceptionIsShown(open: OpenTurn, turn: seq<Event>)
    requires PerceptionTraced(open, PerceivedIn(turn))
    ensures Shown(PerceivedIn(turn)) == if open.perception.Some? then [open.perception.value] else []
  {
  }

  lemma TurnAre(s: FoldState, open: OpenTurn, turn: seq<Event>)
    requires Parts(s) && s.open == Some(open)
    requires BuffersTraced(open.dialogues, open.turn, turn) && Lined(open.dialogues, open.turn, turn)
    ensures Ids(GroupsOf(Completes(open.dialogues), open.turn)) == SourcesThat(true, AnswerSources(turn), s.index, turn)
    ensures EntrySources(Incompletes(open.dialogues, open.turn)) == SourcesThat(false, AnswerSources(turn), s.index, turn)
  {
    hide BuffersTraced, BufferTraced, BufferOk, CommittedOk, RecoveryOk, PendingOk, SummariesOk, PerceptionOk, GroupsOf,
      Completes, Incompletes, SourcesThat;
    TracedBuffers(open.dialogues, open.turn, turn);
    BufferedAre(open.dialogues, open.turn, turn, s.index);
  }

  lemma CompletesAdd(before: seq<SurfaceGroup>, shown: seq<SurfaceGroup>, xs: seq<Exchange>, number: nat)
    requires forall i :: 0 <= i < |xs| ==> IsComplete(xs[i])
    ensures Adds(before, before + shown + GroupsOf(xs, number), shown, Ids(GroupsOf(xs, number)))
  {
    hide IsComplete, ResultMessages, ExchangeSources;
    var after, more := before + shown + GroupsOf(xs, number), GroupsOf(xs, number);
    assert after[|before| + |shown|..] == more;
  }

  /**
   A perception reaches the surface when its turn closes if and only if it had any text: as
   one group of that very receipt, saying that text and citing nothing else.
   */
  lemma PerceptionReachesSurface(events: seq<Event>, e: Event, p: Event)
    requires Offered(events, e) && e.payload.TurnEnd? && LastConfig(events).Some? && Taken(events, e)
    requires PerceivedIn(TurnEvents(events)) == Some(p) && p.payload.WorldPerception?
    ensures var s, t := Folded(events), Folded(events + [e]);
            && s.surface.Some? && t.surface.Some?
            && (p.payload.value.text != "" <==>
                  exists i :: |s.surface.value| <= i < |t.surface.value| && t.surface.value[i]
                    == SurfaceGroup(p.source, Perception, p.payload.turn, [User(p.payload.value.text)], [p.source]))
            && (p.payload.value.text == "" ==>
                  forall i :: |s.surface.value| <= i < |t.surface.value| ==> t.surface.value[i].kind == Dialogue)
  {
    hide Play, Settled, AnswersThat, TurnEvents;
    CloserAdds(events, e);
    var before, after := Folded(events).surface.value, Folded(events + [e]).surface.value;
    if p.payload.value.text != "" {
      assert after[|before|] == Shown(Some(p))[0];
    }
  }

  // --- late results, and what leaves the surface alone -------------------------------------------------

  /** The entry with one more result, still in recovery. */
  ghost function Gaining(r: RecoveryEntry, e: Event): RecoveryEntry
    requires e.payload.ToolResult?
  {
    var more := ResultEntry(e.payload.callId, e.payload.message, e.source, true);
    r.(exchange := r.exchange.(results := r.exchange.results + [more]))
  }

  /**
   A late result joins its entry in recovery, or, when it is the last one missing, moves that
   dialogue from recovery to the end of the surface.
   */
  lemma LateResultMoves(events: seq<Event>, e: Event, at: nat)
    requires Offered(events, e) && e.payload.ToolResult? && !OfOpenTurn(events, e.payload) && Taken(events, e)
    requires Recovers(Folded(events).recovery, e.payload, at)
    ensures var s, t := Folded(events), Folded(events + [e]);
            if LastMissing(s.recovery[at].exchange, e.payload.callId) then
              && t.recovery == s.recovery[..at] + s.recovery[at + 1..]
              && s.surface.Some? && t.surface.Some? && |t.surface.value| == |s.surface.value| + 1
              && t.surface.value[..|s.surface.value|] == s.surface.value
              && t.surface.value[|s.surface.value|].kind == Dialogue
              && t.surface.value[|s.surface.value|].id == s.recovery[at].exchange.source
            else
              t.surface == s.surface && t.recovery == s.recovery[at := Gaining(s.recovery[at], e)]
  {
    hide Play, OpenTraced, IndexOk, Ready, Advertises, HasResult, Recovers, FindRecovery, LastMissing, IsComplete,
      DialogueGroup, AppendGroup;
    var s := Offering(events, e);
    var p := e.payload;
    OnlyEntry(s.recovery, p);
    LateIsRecovery(s, events, e);
    var r := ResultEntry(p.callId, p.message, e.source, true);
    CompletesIff(s.recovery[at].exchange, r);
    var added := s.recovery[at].exchange.(results := s.recovery[at].exchange.results + [r]);
    if IsComplete(added) {
      DialogueGroupKind(added, p.turn);
      AppendedIs(s.surface.value, DialogueGroup(added, p.turn), s.index);
    }
  }

  lemma AppendedIs(groups: seq<SurfaceGroup>, g: SurfaceGroup, index: Index)
    requires AppendGroup(groups, g, index).Some?
    ensures AppendGroup(groups, g, index).value == groups + [g]
  {
  }

  /** Whether an event of this kind can change the surface. */
  ghost predicate Visible(events: seq<Event>, p: Payload) {
    || p.SystemMessage? || p.TurnEnd? || p.PackageFact? || p.CommitRefused? || p.CompactionEnded?
    || (p.ToolResult? && !OfOpenTurn(events, p))
  }

  /** Every other accepted event leaves the surface and the recovery list as they were. */
  lemma NothingElseShows(events: seq<Event>, e: Event)
    requires Offered(events, e) && Taken(events, e) && !Visible(events, e.payload)
    ensures Folded(events + [e]).surface == Folded(events).surface
    ensures Folded(events + [e]).recovery == Folded(events).recovery
  {
    hide Play, BuffersTraced, PerceptionTraced, Lined, ConfigTraced, IndexOk, Ready, PutBuffer, BufferOf, FindPending,
      AddResult, AllKnown;
    var s := Offering(events, e);
  }
}
