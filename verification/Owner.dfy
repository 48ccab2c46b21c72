/**
 The owner record of a cell home (`src/host/owner.ts`) as file steps of any number of
 hosts: link, rename, read and unlink interleave freely, and a host may crash before any
 of them. An actor is one acquire and the handle it returns; its record carries its own
 fresh token.
 */
module Owners {
  import opened Wrappers

  datatype Name = HostJson | Tmp(a: nat) | Reclaim(a: nat) | Release(a: nat)

  /** What a path holds: an actor's record, a regular file that is none, or no regular file. */
  datatype Content = Record(owner: nat) | Invalid | NonRegular

  datatype Verdict = Live | Unverified | Stale

  /** What the first read of `host.json` left to compare with; a live or unverified owner refuses. */
  datatype Seen = SawAbsent | SawStale(record: Option<nat>)

  datatype Pc =
    | Fresh
    | Looked(content: Option<Content>)
    | Observed(seen: Seen)
    | Linking(seen: Seen)
    | Moving(seen: Seen)
    | Judging(seen: Seen)
    | Discarding
    | Publishing
    | Restoring(attempts: nat)
    | Unclaiming
    | Sweeping(acquired: bool)
    | Owning
    | ReleaseJudging
    | ReleaseDiscarding
    | ReleaseRestoring(attempts: nat)
    | ReleaseUnclaiming
    | Done

  datatype Actor = Actor(alive: bool, pc: Pc)

  datatype Home = Home(files: map<Name, Content>, actors: map<nat, Actor>)

  const RESTORE_ATTEMPTS: nat := 3

  datatype Action =
    | Arrive(a: nat)
    | Look(a: nat)
    | Classify(a: nat, verdict: Verdict)
    | WriteTmp(a: nat)
    | Link(a: nat)
    | Move(a: nat)
    | Judge(a: nat, verdict: Verdict)
    | Discard(a: nat)
    | Publish(a: nat)
    | Restore(a: nat)
    | Unclaim(a: nat)
    | Sweep(a: nat)
    | BeginRelease(a: nat)
    | JudgeRelease(a: nat, verdict: Verdict)
    | DiscardRelease(a: nat)
    | RestoreRelease(a: nat)
    | UnclaimRelease(a: nat)
    | Crash(a: nat)
    | Litter(content: Content)

  // --- the file system ------------------------------------------------------------------------

  function At(h: Home, name: Name): Option<Content> {
    if name in h.files then Some(h.files[name]) else None
  }

  /** `rename` of a path that exists. */
  function Renamed(files: map<Name, Content>, from: Name, to: Name): map<Name, Content>
    requires from in files
  {
    (files - {from})[to := files[from]]
  }

  function Put(h: Home, a: nat, pc: Pc): Home
    requires a in h.actors
  {
    h.(actors := h.actors[a := h.actors[a].(pc := pc)])
  }

  /** `tryLink` of the private record onto `host.json`. */
  function TryLink(h: Home, a: nat, lost: Pc): Home
    requires a in h.actors
  {
    if HostJson in h.files then Put(h, a, lost)
    else Put(h.(files := h.files[HostJson := Record(a)]), a, Sweeping(true))
  }

  /** `readOwner`: what the first read made of `host.json`. */
  function Classified(content: Option<Content>, verdict: Verdict): Pc {
    match content
    case None => Observed(SawAbsent)
    case Some(Record(b)) => if verdict.Stale? then Observed(SawStale(Some(b))) else Done
    case Some(_) => Observed(SawStale(None))
  }

  /** `matchesPreRead`. */
  predicate MatchesPreRead(seen: Seen, moved: nat) {
    seen.SawAbsent? || seen.record.None? || seen.record.value == moved
  }

  /** `reclaim`'s decision on the file it moved. */
  function Judged(seen: Seen, content: Option<Content>, verdict: Verdict): Pc {
    match content
    case None => Publishing
    case Some(Invalid) => Discarding
    case Some(NonRegular) => Sweeping(false)
    case Some(Record(b)) =>
      if verdict.Stale? && MatchesPreRead(seen, b) then Discarding else Restoring(0)
  }

  /** `releaseRecord`'s decision on the file it moved. */
  function ReleaseJudged(a: nat, content: Option<Content>, verdict: Verdict): Pc {
    match content
    case None => Done
    case Some(Invalid) => ReleaseDiscarding
    case Some(NonRegular) => Done
    case Some(Record(b)) => if b == a || verdict.Stale? then ReleaseDiscarding else ReleaseRestoring(0)
  }

  /** `restoreClaim`: one attempt to link the claim back. */
  function RestoreOnce(h: Home, a: nat, claim: Name, attempts: nat, again: Pc, gaveUp: Pc, linked: Pc): Home
    requires a in h.actors
  {
    if claim !in h.files then Put(h, a, gaveUp)
    else if HostJson in h.files then Put(h, a, if attempts + 1 < RESTORE_ATTEMPTS then again else gaveUp)
    else Put(h.(files := h.files[HostJson := h.files[claim]]), a, linked)
  }

  /** `classify` never calls a live process stale. */
  predicate Truthful(h: Home, content: Option<Content>, verdict: Verdict) {
    verdict.Stale? && content.Some? && content.value.Record? && content.value.owner in h.actors ==>
      !h.actors[content.value.owner].alive
  }

  // --- the steps ---------------------------------------------------------------------------------

  predicate Ready(h: Home, a: nat) {
    a in h.actors && h.actors[a].alive
  }

  /** The steps of `acquireOwner` up to its first link. */
  function StepObserve(h: Home, action: Action): Option<Home> {
    match action
    case Look(a) =>
      if Ready(h, a) && h.actors[a].pc.Fresh? then Some(Put(h, a, Looked(At(h, HostJson)))) else None
    case Classify(a, verdict) =>
      if !Ready(h, a) || !h.actors[a].pc.Looked? || !Truthful(h, h.actors[a].pc.content, verdict) then None
      else
        Some(Put(h, a, Classified(h.actors[a].pc.content, verdict)))
    case WriteTmp(a) =>
      if Ready(h, a) && h.actors[a].pc.Observed? then
        Some(Put(h.(files := h.files[Tmp(a) := Record(a)]), a, Linking(h.actors[a].pc.seen)))
      else None
    case _ => None
  }

  /** The publish and the reclaim CAS. */
  function StepReclaim(h: Home, action: Action): Option<Home> {
    match action
    case Link(a) =>
      if Ready(h, a) && h.actors[a].pc.Linking? then Some(TryLink(h, a, Moving(h.actors[a].pc.seen))) else None
    case Move(a) =>
      if !Ready(h, a) || !h.actors[a].pc.Moving? then None
      else if HostJson !in h.files then Some(Put(h, a, Publishing))
      else Some(Put(h.(files := Renamed(h.files, HostJson, Reclaim(a))), a, Judging(h.actors[a].pc.seen)))
    case Judge(a, verdict) =>
      if !Ready(h, a) || !h.actors[a].pc.Judging? || !Truthful(h, At(h, Reclaim(a)), verdict) then None
      else Some(Put(h, a, Judged(h.actors[a].pc.seen, At(h, Reclaim(a)), verdict)))
    case Discard(a) =>
      if Ready(h, a) && h.actors[a].pc.Discarding? then
        Some(Put(h.(files := h.files - {Reclaim(a)}), a, Publishing))
      else None
    case Publish(a) =>
      if Ready(h, a) && h.actors[a].pc.Publishing? then Some(TryLink(h, a, Sweeping(false))) else None
    case Restore(a) =>
      if Ready(h, a) && h.actors[a].pc.Restoring? then
        var k := h.actors[a].pc.attempts;
        Some(RestoreOnce(h, a, Reclaim(a), k, Restoring(k + 1), Sweeping(false), Unclaiming))
      else None
    case Unclaim(a) =>
      if Ready(h, a) && h.actors[a].pc.Unclaiming? then
        Some(Put(h.(files := h.files - {Reclaim(a)}), a, Sweeping(false)))
      else None
    case Sweep(a) =>
      if Ready(h, a) && h.actors[a].pc.Sweeping? then
        Some(Put(h.(files := h.files - {Tmp(a)}), a, if h.actors[a].pc.acquired then Owning else Done))
      else None
    case _ => None
  }

  /** The handle's release, begun at most once. */
  function StepRelease(h: Home, action: Action): Option<Home> {
    match action
    case BeginRelease(a) =>
      if !Ready(h, a) || !h.actors[a].pc.Owning? then None
      else if HostJson !in h.files then Some(Put(h, a, Done))
      else Some(Put(h.(files := Renamed(h.files, HostJson, Release(a))), a, ReleaseJudging))
    case JudgeRelease(a, verdict) =>
      if !Ready(h, a) || !h.actors[a].pc.ReleaseJudging? || !Truthful(h, At(h, Release(a)), verdict) then None
      else Some(Put(h, a, ReleaseJudged(a, At(h, Release(a)), verdict)))
    case DiscardRelease(a) =>
      if Ready(h, a) && h.actors[a].pc.ReleaseDiscarding? then
        Some(Put(h.(files := h.files - {Release(a)}), a, Done))
      else None
    case RestoreRelease(a) =>
      if Ready(h, a) && h.actors[a].pc.ReleaseRestoring? then
        var k := h.actors[a].pc.attempts;
        Some(RestoreOnce(h, a, Release(a), k, ReleaseRestoring(k + 1), Done, ReleaseUnclaiming))
      else None
    case UnclaimRelease(a) =>
      if Ready(h, a) && h.actors[a].pc.ReleaseUnclaiming? then
        Some(Put(h.(files := h.files - {Release(a)}), a, Done))
      else None
    case _ => None
  }

  function Step(h: Home, action: Action): Option<Home> {
    match action
    case Arrive(a) => if a in h.actors then None else Some(h.(actors := h.actors[a := Actor(true, Fresh)]))
    case Crash(a) => if a in h.actors then Some(h.(actors := h.actors[a := h.actors[a].(alive := false)])) else None
    case Litter(content) =>
      if HostJson in h.files || content.Record? then None else Some(h.(files := h.files[HostJson := content]))
    case Look(_) => StepObserve(h, action)
    case Classify(_, _) => StepObserve(h, action)
    case WriteTmp(_) => StepObserve(h, action)
    case BeginRelease(_) => StepRelease(h, action)
    case JudgeRelease(_, _) => StepRelease(h, action)
    case DiscardRelease(_) => StepRelease(h, action)
    case RestoreRelease(_) => StepRelease(h, action)
    case UnclaimRelease(_) => StepRelease(h, action)
    case _ => StepReclaim(h, action)
  }

  function Execute(actions: seq<Action>): Option<Home> {
    if actions == [] then Some(Home(map[], map[]))
    else
      match Execute(actions[..|actions| - 1])
      case None => None
      case Some(h) => Step(h, actions[|actions| - 1])
  }

  // --- what every interleaving keeps ------------------------------------------------------------------

  /** The actor is alive, has published its record and has not begun to release it. */
  predicate Holds(h: Home, a: nat) {
    a in h.actors && h.actors[a].alive && (h.actors[a].pc.Owning? || h.actors[a].pc == Sweeping(true))
  }

  /** A name that nobody is about to unlink. */
  predicate Lasting(h: Home, name: Name) {
    match name
    case HostJson => true
    case Tmp(_) => false
    case Reclaim(b) => b in h.actors && !h.actors[b].pc.Discarding? && !h.actors[b].pc.Unclaiming?
    case Release(b) => b in h.actors && !h.actors[b].pc.ReleaseDiscarding? && !h.actors[b].pc.ReleaseUnclaiming?
  }

  ghost predicate Kept(h: Home, a: nat) {
    exists name :: name in h.files && h.files[name] == Record(a) && Lasting(h, name)
  }

  predicate BeforeMove(pc: Pc) {
    pc.Fresh? || pc.Looked? || pc.Observed? || pc.Linking? || pc.Moving?
  }

  predicate BeforeRelease(pc: Pc) {
    !pc.ReleaseJudging? && !pc.ReleaseDiscarding? && !pc.ReleaseRestoring? && !pc.ReleaseUnclaiming? && !pc.Done?
  }

  /** A claim path exists only once its actor has made it. */
  ghost predicate ClaimsOk(h: Home) {
    && (forall a :: Reclaim(a) in h.files ==> a in h.actors && !BeforeMove(h.actors[a].pc))
    && (forall a :: Release(a) in h.files ==> a in h.actors && !BeforeRelease(h.actors[a].pc))
  }

  /** A claim about to be discarded holds no live actor's record, but for the releaser's own. */
  ghost predicate DiscardsOk(h: Home) {
    && (forall a, b :: a in h.actors && h.actors[a].pc.Discarding? && At(h, Reclaim(a)) == Some(Record(b)) ==>
          b in h.actors && !h.actors[b].alive)
    && (forall a, b :: a in h.actors && h.actors[a].pc.ReleaseDiscarding? && At(h, Release(a)) == Some(Record(b)) ==>
          a == b || (b in h.actors && !h.actors[b].alive))
  }

  predicate Arrived(h: Home, content: Option<Content>) {
    content.Some? && content.value.Record? ==> content.value.owner in h.actors
  }

  /** Every record on disk is of an actor that has arrived. */
  ghost predicate RecordsOk(h: Home) {
    && (forall name :: name in h.files ==> Arrived(h, Some(h.files[name])))
    && (forall a :: a in h.actors && h.actors[a].pc.Looked? ==> Arrived(h, h.actors[a].pc.content))
  }

  ghost predicate HomeOk(h: Home) {
    && ClaimsOk(h) && DiscardsOk(h) && RecordsOk(h)
    && forall a :: Holds(h, a) ==> Kept(h, a)
  }
}
