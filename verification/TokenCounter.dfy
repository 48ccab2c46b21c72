/**
 The shared token counter (class `NodeTokenCounter` in `src/host/token-counter.ts`): the
 aggregate changes synchronously, one write loop at a time carries it to disk, and a
 change made while a write is in flight is written by the next round.
 */
module TokenCounters {
  import opened Wrappers
  import opened Decimals

  datatype State = Active | Exhausted | Unknown

  datatype Snapshot = Snapshot(limit: nat, used: nat, state: State)

  /** The write loop: none, one persisting a snapshot, or one that left its loop but not its `finally`. */
  datatype WriteLoop = Idle | Writing(snapshot: Snapshot) | Ending

  datatype Counter = Counter(
    memory: Snapshot, dirty: bool, loop: WriteLoop, notified: bool, notices: nat, disk: Snapshot)

  datatype Admission = Admits | IsExhausted | IsUnknown

  predicate ValidTokens(n: int) {
    0 <= n <= MAX_SAFE_INTEGER
  }

  /** `open`: what the file holds is the memory. */
  function Opened(stored: Snapshot): Counter {
    Counter(stored, false, Idle, false, 0, stored)
  }

  function Notified(c: Counter): Counter {
    if c.notified then c else c.(notified := true, notices := c.notices + 1)
  }

  /** A write is asked for: it starts at once when none runs. */
  function Scheduled(c: Counter): Counter {
    if c.loop.Idle? then c.(dirty := false, loop := Writing(c.memory)) else c.(dirty := true)
  }

  function MarkUnknown(c: Counter): Counter {
    if c.memory.state.Unknown? then c
    else Scheduled(Notified(c.(memory := c.memory.(state := Unknown))))
  }

  /** The aggregate with more tokens; a terminal state is never revived. */
  function Added(m: Snapshot, tokens: nat): Snapshot {
    var used := m.used + tokens;
    var state :=
      if m.state.Unknown? then Unknown
      else if used >= m.limit then Exhausted
      else if m.state.Exhausted? then Exhausted
      else Active;
    m.(used := used, state := state)
  }

  function Record(c: Counter, input: int, output: int): Counter {
    if !ValidTokens(input) || !ValidTokens(output) then MarkUnknown(c)
    else
      var next := c.(memory := Added(c.memory, input + output));
      Scheduled(if next.memory.state.Active? then next else Notified(next))
  }

  /** The awaited write settled; a failed one may have replaced the file all the same. */
  function Settled(c: Counter, ok: bool, written: bool): Counter
    requires c.loop.Writing?
  {
    var disk := if ok || written then c.loop.snapshot else c.disk;
    if !ok then
      Notified(c.(memory := c.memory.(state := Unknown), dirty := false, loop := Ending, disk := disk))
    else if c.dirty then c.(dirty := false, loop := Writing(c.memory), disk := disk)
    else c.(loop := Ending, disk := disk)
  }

  /** The loop's `finally`. */
  function Finished(c: Counter): Counter {
    var idle := c.(loop := Idle);
    if c.dirty then Scheduled(idle) else idle
  }

  function Admit(m: Snapshot): Admission {
    if m.state.Unknown? then IsUnknown
    else if m.state.Exhausted? || m.used >= m.limit then IsExhausted
    else Admits
  }

  datatype Action = Records(input: int, output: int) | Marks | Settles(ok: bool, written: bool) | Finishes

  function Step(c: Counter, a: Action): Option<Counter> {
    match a
    case Records(input, output) => Some(Record(c, input, output))
    case Marks => Some(MarkUnknown(c))
    case Settles(ok, written) => if c.loop.Writing? then Some(Settled(c, ok, written)) else None
    case Finishes => if c.loop.Ending? then Some(Finished(c)) else None
  }

  function Execute(c: Counter, actions: seq<Action>): Option<Counter> {
    if actions == [] then Some(c)
    else
      match Execute(c, actions[..|actions| - 1])
      case None => None
      case Some(before) => Step(before, actions[|actions| - 1])
  }

  class NodeTokenCounter {
    var memory: Snapshot
    var dirty: bool
    var loop: WriteLoop
    var notified: bool
    ghost var notices: nat
    var disk: Snapshot

    ghost function Value(): Counter
      reads this
    {
      Counter(memory, dirty, loop, notified, notices, disk)
    }

    constructor (stored: Snapshot)
      ensures Value() == Opened(stored)
    {
      memory, dirty, loop, notified, notices, disk := stored, false, Idle, false, 0, stored;
    }

    method Admission() returns (a: Admission)
      ensures a == Admit(memory)
    {
      if memory.state.Unknown? { return IsUnknown; }
      if memory.state.Exhausted? || memory.used >= memory.limit { return IsExhausted; }
      a := Admits;
    }

    method Notify()
      modifies this
      ensures Value() == Notified(old(Value()))
    {
      if notified { return; }
      notified := true;
      notices := notices + 1;
    }

    method ScheduleWrite()
      modifies this
      ensures Value() == Scheduled(old(Value()))
    {
      dirty := true;
      if loop.Idle? { StartRound(); }
    }

    /** The top of the loop: the current snapshot, never an older one, is what is persisted. */
    method StartRound()
      modifies this
      ensures Value() == old(Value()).(dirty := false, loop := Writing(old(memory)))
    {
      dirty := false;
      loop := Writing(memory);
    }

    method SetUnknown()
      modifies this
      ensures Value() == MarkUnknown(old(Value()))
    {
      if memory.state.Unknown? { return; }
      memory := memory.(state := Unknown);
      Notify();
      ScheduleWrite();
    }

    method RecordTokens(input: int, output: int)
      modifies this
      ensures Value() == Record(old(Value()), input, output)
    {
      if !ValidTokens(input) || !ValidTokens(output) {
        SetUnknown();
        return;
      }
      var used := memory.used + input + output;
      var state :=
        if memory.state.Unknown? then Unknown
        else if used >= memory.limit then Exhausted
        else if memory.state.Exhausted? then Exhausted
        else Active;
      memory := memory.(used := used, state := state);
      if !state.Active? { Notify(); }
      ScheduleWrite();
    }

    /** A round of the loop after its await: go round again, leave, or fail. */
    method PersistSettled(ok: bool, written: bool)
      requires loop.Writing?
      modifies this
      ensures Value() == Settled(old(Value()), ok, written)
    {
      if ok || written { disk := loop.snapshot; }
      if !ok {
        memory := memory.(state := Unknown);
        Notify();
        dirty := false;
        loop := Ending;
      } else if dirty {
        StartRound();
      } else {
        loop := Ending;
      }
    }

    method LoopFinished()
      requires loop.Ending?
      modifies this
      ensures Value() == Finished(old(Value()))
    {
      loop := Idle;
      if dirty { ScheduleWrite(); }
    }
  }

  // --- what every interleaving keeps --------------------------------------------------------------

  function Rank(s: State): nat {
    match s case Active => 0 case Exhausted => 1 case Unknown => 2
  }

  /** Not later than: neither fewer tokens nor a revived state. */
  predicate Below(a: Snapshot, b: Snapshot) {
    a.limit == b.limit && a.used <= b.used && Rank(a.state) <= Rank(b.state)
  }

  predicate Carried(c: Counter) {
    c.disk == c.memory || c.memory.state.Unknown?
  }

  ghost predicate CounterOk(c: Counter) {
    && Below(c.disk, c.memory)
    && match c.loop {
         case Idle => !c.dirty && Carried(c)
         case Writing(s) => Below(c.disk, s) && Below(s, c.memory) && (!c.dirty ==> s == c.memory)
         case Ending => !c.dirty ==> Carried(c)
       }
  }

  lemma MarkKeeps(c: Counter)
    requires CounterOk(c)
    ensures var next := MarkUnknown(c); CounterOk(next) && Below(c.memory, next.memory) && next.disk == c.disk
  {
  }

  lemma RecordKeeps(c: Counter, input: int, output: int)
    requires CounterOk(c)
    ensures var next := Record(c, input, output);
            CounterOk(next) && Below(c.memory, next.memory) && next.disk == c.disk
  {
    hide MarkUnknown;
    MarkKeeps(c);
  }

  lemma SettledKeeps(c: Counter, ok: bool, written: bool)
    requires CounterOk(c) && c.loop.Writing?
    ensures var next := Settled(c, ok, written);
            CounterOk(next) && Below(c.memory, next.memory) && Below(c.disk, next.disk)
  {
  }

  lemma StepKeeps(c: Counter, a: Action)
    requires CounterOk(c) && Step(c, a).Some?
    ensures var next := Step(c, a).value;
            CounterOk(next) && Below(c.memory, next.memory) && Below(c.disk, next.disk)
  {
    hide Record, MarkUnknown, Settled;
    match a
    case Records(input, output) => RecordKeeps(c, input, output);
    case Marks => MarkKeeps(c);
    case Settles(ok, written) => SettledKeeps(c, ok, written);
    case Finishes =>
  }

  lemma {:induction false} ExecuteKeeps(c: Counter, actions: seq<Action>)
    requires CounterOk(c) && Execute(c, actions).Some?
    ensures CounterOk(Execute(c, actions).value)
    ensures Below(c.memory, Execute(c, actions).value.memory) && Below(c.disk, Execute(c, actions).value.disk)
  {
    hide CounterOk, Step;
    if actions != [] {
      var shorter := actions[..|actions| - 1];
      ExecuteKeeps(c, shorter);
      StepKeeps(Execute(c, shorter).value, actions[|actions| - 1]);
    }
  }

  /** The valid tokens of a run; an invalid pair counts for nothing. */
  function Tokens(actions: seq<Action>): nat {
    if actions == [] then 0
    else
      var last := actions[|actions| - 1];
      Tokens(actions[..|actions| - 1])
      + (if last.Records? && ValidTokens(last.input) && ValidTokens(last.output) then last.input + last.output else 0)
  }

  /** The aggregate is the start plus every valid pair, whatever writes are in flight or fail. */
  lemma {:induction false} UsedIsTheSum(c: Counter, actions: seq<Action>)
    requires Execute(c, actions).Some?
    ensures Execute(c, actions).value.memory.used == c.memory.used + Tokens(actions)
  {
    if actions != [] {
      UsedIsTheSum(c, actions[..|actions| - 1]);
    }
  }

  lemma {:induction false} ExecuteConcat(c: Counter, a: seq<Action>, b: seq<Action>)
    requires Execute(c, a + b).Some?
    ensures Execute(c, a).Some? && Execute(Execute(c, a).value, b) == Execute(c, a + b)
  {
    hide Step;
    if b == [] {
      assert a + b == a;
    } else {
      assert (a + b)[..|a + b| - 1] == a + b[..|b| - 1];
      ExecuteConcat(c, a, b[..|b| - 1]);
    }
  }

  /**
   From the moment a counter is opened, over every interleaving of records, marks and
   settling writes: neither memory nor disk ever loses tokens or revives a terminal state,
   and admission, once closed, never opens again.
   */
  lemma NothingIsRevived(stored: Snapshot, a: seq<Action>, b: seq<Action>)
    requires Execute(Opened(stored), a + b).Some?
    ensures Execute(Opened(stored), a).Some?
    ensures var c, later := Execute(Opened(stored), a).value, Execute(Opened(stored), a + b).value;
            && Below(c.memory, later.memory) && Below(c.disk, later.disk)
            && (!Admit(c.memory).Admits? ==> !Admit(later.memory).Admits?)
  {
    hide CounterOk, Step, Execute;
    OpenedIsOk(stored);
    ExecuteConcat(Opened(stored), a, b);
    ExecuteKeeps(Opened(stored), a);
    ExecuteKeeps(Execute(Opened(stored), a).value, b);
  }

  lemma OpenedIsOk(stored: Snapshot)
    ensures CounterOk(Opened(stored))
  {
  }

  /** At rest, with no write running and nothing dirty, the disk holds the memory, or the memory is unknown. */
  lemma AtRestItIsOnDisk(stored: Snapshot, actions: seq<Action>)
    requires Execute(Opened(stored), actions).Some?
    ensures var c := Execute(Opened(stored), actions).value;
            && (c.loop.Idle? ==> !c.dirty)
            && (!c.loop.Writing? && !c.dirty ==> c.disk == c.memory || c.memory.state.Unknown?)
  {
    hide Step, Execute;
    OpenedIsOk(stored);
    ExecuteKeeps(Opened(stored), actions);
  }

  /** What is left of the write loop when every write from here on succeeds. */
  function Rest(c: Counter): seq<Action> {
    match c.loop
    case Idle => []
    case Writing(_) => (if c.dirty then [Settles(true, true)] else []) + [Settles(true, true), Finishes]
    case Ending => [Finishes] + (if c.dirty then [Settles(true, true), Finishes] else [])
  }

  lemma {:induction false} ExecuteFirst(c: Counter, a: Action, rest: seq<Action>)
    requires Step(c, a).Some?
    ensures Execute(c, [a] + rest) == Execute(Step(c, a).value, rest)
  {
    hide Step;
    var all := [a] + rest;
    assert Execute(c, []) == Some(c);
    if rest == [] {
      assert all == [a] && [a][..0] == [];
    } else {
      var shorter := rest[..|rest| - 1];
      assert all[..|all| - 1] == [a] + shorter;
      ExecuteFirst(c, a, shorter);
    }
  }

  /**
   The loop writes through: from any point of any run, if the writes from here on succeed, at
   most two more rounds bring it to rest with what was changed last on disk and nothing lost.
   */
  lemma WritesThrough(stored: Snapshot, actions: seq<Action>)
    requires Execute(Opened(stored), actions).Some?
    ensures var c := Execute(Opened(stored), actions).value;
            var r := Execute(c, Rest(c));
            && r.Some? && r.value.loop.Idle? && !r.value.dirty
            && r.value.memory == c.memory && r.value.notices == c.notices
            && r.value.disk == if c.loop.Writing? || c.dirty then c.memory else c.disk
  {
    hide Execute;
    OpenedIsOk(stored);
    ExecuteKeeps(Opened(stored), actions);
    var c := Execute(Opened(stored), actions).value;
    var good := Settles(true, true);
    match c.loop
    case Idle => ExecuteNothing(c);
    case Writing(_) => LoopEnds(c);
    case Ending =>
      var next := Finished(c);
      ExecuteFirst(c, Finishes, if c.dirty then [good, Finishes] else []);
      if c.dirty {
        assert [] + [good, Finishes] == [good, Finishes];
        LoopEnds(next);
      } else {
        assert [Finishes] + [] == [Finishes];
        ExecuteNothing(next);
      }
  }

  lemma ExecuteNothing(c: Counter)
    ensures Execute(c, []) == Some(c)
  {
  }

  lemma LoopEnds(c: Counter)
    requires c.loop.Writing? && (!c.dirty ==> c.loop.snapshot == c.memory)
    ensures Execute(c, Rest(c)) == Some(c.(dirty := false, loop := Idle, disk := c.memory))
  {
    hide Execute;
    var good := Settles(true, true);
    var last := c.(dirty := false, loop := Writing(c.memory), disk := if c.dirty then c.loop.snapshot else c.disk);
    if c.dirty {
      ExecuteFirst(c, good, [good, Finishes]);
      assert [good] + [good, Finishes] == Rest(c);
    } else {
      assert [] + [good, Finishes] == Rest(c) == [good, Finishes];
    }
    var ended := last.(loop := Ending, disk := c.memory);
    ExecuteFirst(last, good, [Finishes]);
    assert [good] + [Finishes] == [good, Finishes];
    ExecuteFirst(ended, Finishes, []);
    assert [Finishes] + [] == [Finishes];
    ExecuteNothing(c.(dirty := false, loop := Idle, disk := c.memory));
  }

  /** The terminal callback runs at most once. */
  lemma {:induction false} NotifiedOnce(stored: Snapshot, actions: seq<Action>)
    requires Execute(Opened(stored), actions).Some?
    ensures var c := Execute(Opened(stored), actions).value; c.notices == if c.notified then 1 else 0
  {
    if actions != [] {
      NotifiedOnce(stored, actions[..|actions| - 1]);
    }
  }

  // --- when admission closes -----------------------------------------------------------------------

  predicate IsTally(a: Action) {
    a.Records? && ValidTokens(a.input) && ValidTokens(a.output)
  }

  /** What makes a count unknown: a mark, an invalid pair, a write that failed. */
  predicate IsFault(a: Action) {
    a.Marks? || (a.Records? && !IsTally(a)) || (a.Settles? && !a.ok)
  }

  ghost predicate Tallied(actions: seq<Action>) {
    exists i :: 0 <= i < |actions| && IsTally(actions[i])
  }

  ghost predicate Faulted(actions: seq<Action>) {
    exists i :: 0 <= i < |actions| && IsFault(actions[i])
  }

  ghost predicate WriteFailed(actions: seq<Action>) {
    exists i :: 0 <= i < |actions| && actions[i].Settles? && !actions[i].ok
  }

  /** The state a run ends in, from what was stored and what happened. */
  ghost function EndState(stored: Snapshot, actions: seq<Action>): State {
    if stored.state.Unknown? || Faulted(actions) then Unknown
    else if stored.state.Exhausted? then Exhausted
    else if Tallied(actions) && stored.used + Tokens(actions) >= stored.limit then Exhausted
    else Active
  }

  /** Whether the terminal callback has run: something happened in, or led to, a terminal state. */
  ghost predicate Told(stored: Snapshot, actions: seq<Action>) {
    match stored.state
    case Active => !EndState(stored, actions).Active?
    case Exhausted => Faulted(actions) || Tallied(actions)
    case Unknown => WriteFailed(actions) || Tallied(actions)
  }

  lemma OneMore(actions: seq<Action>)
    requires actions != []
    ensures var shorter, last := actions[..|actions| - 1], actions[|actions| - 1];
            && (Tallied(actions) <==> Tallied(shorter) || IsTally(last))
            && (Faulted(actions) <==> Faulted(shorter) || IsFault(last))
            && (WriteFailed(actions) <==> WriteFailed(shorter) || (last.Settles? && !last.ok))
  {
    hide IsTally, IsFault;
    var shorter, last := actions[..|actions| - 1], actions[|actions| - 1];
    assert forall i :: 0 <= i < |shorter| ==> shorter[i] == actions[i];
    if Tallied(shorter) {
      var i :| 0 <= i < |shorter| && IsTally(shorter[i]);
      assert IsTally(actions[i]);
    }
    if Faulted(shorter) {
      var i :| 0 <= i < |shorter| && IsFault(shorter[i]);
      assert IsFault(actions[i]);
    }
  }

  /** The state, the limit and the notices of every run, from its history alone. */
  lemma {:induction false} StateIs(stored: Snapshot, actions: seq<Action>)
    requires Execute(Opened(stored), actions).Some?
    ensures var c := Execute(Opened(stored), actions).value;
            && c.memory == Snapshot(stored.limit, stored.used + Tokens(actions), EndState(stored, actions))
            && c.notified == Told(stored, actions)
            && c.notices == if Told(stored, actions) then 1 else 0
  {
    UsedIsTheSum(Opened(stored), actions);
    NotifiedOnce(stored, actions);
    hide Tallied, Faulted, WriteFailed;
    if actions == [] {
      assert !Tallied([]) && !Faulted([]) && !WriteFailed([]) by { NothingHappened(); }
    } else {
      OneMore(actions);
      StateIs(stored, actions[..|actions| - 1]);
    }
  }

  lemma NothingHappened()
    ensures !Tallied([]) && !Faulted([]) && !WriteFailed([])
  {
  }

  /**
   Admission over every run: unknown exactly after a fault, or where the stored count was;
   otherwise exhausted exactly when the stored tokens plus every valid pair reach the limit,
   or where the stored count was; otherwise open. The callback has run as `Told` says.
   */
  lemma AdmissionIff(stored: Snapshot, actions: seq<Action>)
    requires Execute(Opened(stored), actions).Some?
    ensures var c, total := Execute(Opened(stored), actions).value, stored.used + Tokens(actions);
            var unknown := stored.state.Unknown? || Faulted(actions);
            && (Admit(c.memory).IsUnknown? <==> unknown)
            && (Admit(c.memory).IsExhausted? <==> !unknown && (stored.state.Exhausted? || total >= stored.limit))
            && (Admit(c.memory).Admits? <==> !unknown && stored.state.Active? && total < stored.limit)
            && (c.memory.state == EndState(stored, actions))
            && (c.notices == if Told(stored, actions) then 1 else 0)
  {
    hide Execute, Tallied, Faulted, WriteFailed;
    StateIs(stored, actions);
  }

  // --- reading the file back ---------------------------------------------------------------------------

  /** What `parseSnapshot` accepts. */
  predicate Readable(s: Snapshot) {
    0 < s.limit <= MAX_SAFE_INTEGER && s.used <= MAX_SAFE_INTEGER
  }

  /** The latest write of the run that settled, if any did, succeeded. */
  predicate LastWriteSucceeded(actions: seq<Action>) {
    if actions == [] then true
    else
      var last := actions[|actions| - 1];
      if last.Settles? then last.ok else LastWriteSucceeded(actions[..|actions| - 1])
  }

  /** Between two writes, with nothing to write. */
  predicate AtRest(c: Counter) {
    !c.loop.Writing? && !c.dirty
  }

  /** Unless the latest write failed, a counter at rest is on disk as it is in memory. */
  lemma {:induction false} RestIsOnDisk(stored: Snapshot, actions: seq<Action>)
    requires Execute(Opened(stored), actions).Some? && LastWriteSucceeded(actions)
    ensures var c := Execute(Opened(stored), actions).value;
            && (AtRest(c) ==> c.disk == c.memory)
            && (c.loop.Writing? && !c.dirty ==> c.loop.snapshot == c.memory)
            && (c.loop.Idle? ==> !c.dirty)
  {
    OpenedIsOk(stored);
    ExecuteKeeps(Opened(stored), actions);
    if actions != [] {
      var shorter, last := actions[..|actions| - 1], actions[|actions| - 1];
      ExecuteKeeps(Opened(stored), shorter);
      if !last.Settles? {
        RestIsOnDisk(stored, shorter);
      }
    }
  }

  /**
   From a readable file, over every interleaving and whatever earlier writes failed: once
   the counter is at rest behind a write that succeeded, the file it leaves is readable if
   and only if the start plus every valid pair is still a safe integer.
   */
  lemma ReadBackIff(stored: Snapshot, actions: seq<Action>)
    requires Readable(stored) && Execute(Opened(stored), actions).Some?
    requires AtRest(Execute(Opened(stored), actions).value) && LastWriteSucceeded(actions)
    ensures Readable(Execute(Opened(stored), actions).value.disk)
       <==> stored.used + Tokens(actions) <= MAX_SAFE_INTEGER
  {
    hide Step, Execute;
    OpenedIsOk(stored);
    ExecuteKeeps(Opened(stored), actions);
    UsedIsTheSum(Opened(stored), actions);
    RestIsOnDisk(stored, actions);
  }

  /** At every point of every run, writes in flight or failed, a safe total leaves a readable file. */
  lemma SafeTotalIsReadable(stored: Snapshot, actions: seq<Action>)
    requires Readable(stored) && Execute(Opened(stored), actions).Some?
    requires stored.used + Tokens(actions) <= MAX_SAFE_INTEGER
    ensures Readable(Execute(Opened(stored), actions).value.disk)
  {
    hide Step, Execute;
    OpenedIsOk(stored);
    ExecuteKeeps(Opened(stored), actions);
    UsedIsTheSum(Opened(stored), actions);
  }

  /** One record of safe numbers can write a file the next boot refuses. */
  lemma OvershootIsUnreadable()
    ensures var actions := [Records(MAX_SAFE_INTEGER, 1), Settles(true, true)];
            var after := Execute(Opened(Snapshot(1, 0, Active)), actions);
            Readable(Snapshot(1, 0, Active)) && after.Some? && !Readable(after.value.disk)
  {
    var actions := [Records(MAX_SAFE_INTEGER, 1), Settles(true, true)];
    var start := Opened(Snapshot(1, 0, Active));
    var first := actions[..1];
    assert first == [Records(MAX_SAFE_INTEGER, 1)] && first[..0] == [];
    assert Execute(start, first[..0]) == Some(start);
    assert Execute(start, first) == Step(start, first[0]);
    assert Execute(start, actions) == Step(Execute(start, first).value, actions[1]);
  }
}
