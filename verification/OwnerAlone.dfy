/**
 What one acquire and one release answer when no other host moves between their steps:
 which home is taken over, which refuses, and what is left of the files.
 */
module OwnerAlone {
  import opened Wrappers
  import opened Owners

  /** The step an actor takes next, given what it judges of the record it reads and of the one it moves. */
  function NextOf(a: nat, pc: Pc, read: Verdict, moved: Verdict): Option<Action> {
    match pc
    case Fresh => Some(Look(a))
    case Looked(_) => Some(Classify(a, read))
    case Observed(_) => Some(WriteTmp(a))
    case Linking(_) => Some(Link(a))
    case Moving(_) => Some(Move(a))
    case Judging(_) => Some(Judge(a, moved))
    case Discarding => Some(Discard(a))
    case Publishing => Some(Publish(a))
    case Restoring(_) => Some(Restore(a))
    case Unclaiming => Some(Unclaim(a))
    case Sweeping(_) => Some(Sweep(a))
    case ReleaseJudging => Some(JudgeRelease(a, moved))
    case ReleaseDiscarding => Some(DiscardRelease(a))
    case ReleaseRestoring(_) => Some(RestoreRelease(a))
    case ReleaseUnclaiming => Some(UnclaimRelease(a))
    case Owning => None
    case Done => None
  }

  /** Up to `steps` steps of one actor, until it has answered; `None` where a step is not enabled. */
  function Alone(h: Home, a: nat, read: Verdict, moved: Verdict, steps: nat): Option<Home>
    decreases steps
  {
    if steps == 0 || a !in h.actors then Some(h)
    else
      match NextOf(a, h.actors[a].pc, read, moved)
      case None => Some(h)
      case Some(action) =>
        match Step(h, action)
        case None => None
        case Some(next) => Alone(next, a, read, moved, steps - 1)
  }

  /** The longest acquire or release takes this many steps. */
  const STEPS: nat := 9

  /** Only `host.json` and the paths an actor names after its own token changed. */
  ghost predicate OthersUntouched(h: Home, g: Home, a: nat) {
    forall name :: name != HostJson && name != Tmp(a) && name != Reclaim(a) && name != Release(a) ==>
      At(g, name) == At(h, name)
  }

  lemma Answered(h: Home, a: nat, read: Verdict, moved: Verdict, steps: nat)
    requires a in h.actors && (h.actors[a].pc.Owning? || h.actors[a].pc.Done?)
    ensures Alone(h, a, read, moved, steps) == Some(h)
  {
  }

  lemma OneStep(h: Home, a: nat, read: Verdict, moved: Verdict, steps: nat)
    requires steps > 0 && a in h.actors && NextOf(a, h.actors[a].pc, read, moved).Some?
    requires Step(h, NextOf(a, h.actors[a].pc, read, moved).value).Some?
    ensures Alone(h, a, read, moved, steps)
         == Alone(Step(h, NextOf(a, h.actors[a].pc, read, moved).value).value, a, read, moved, steps - 1)
  {
    hide Step;
  }

  // --- one acquire -------------------------------------------------------------------------------

  /** An actor of the home at a place of its protocol, over these files. */
  ghost predicate Stands(h: Home, g: Home, a: nat, pc: Pc, files: map<Name, Content>) {
    a in h.actors && h.actors[a].alive && g == h.(files := files, actors := h.actors[a := Actor(true, pc)])
  }

  /** From a fresh actor up to its link, or to its refusal of a record it does not judge stale. */
  lemma Observes(h: Home, a: nat, read: Verdict, moved: Verdict, steps: nat) returns (g: Home)
    requires a in h.actors && h.actors[a] == Actor(true, Fresh) && Truthful(h, At(h, HostJson), read) && steps >= 3
    ensures At(h, HostJson).Some? && At(h, HostJson).value.Record? && !read.Stale? ==>
              Stands(h, g, a, Done, h.files) && Alone(h, a, read, moved, steps) == Some(g)
    ensures !(At(h, HostJson).Some? && At(h, HostJson).value.Record? && !read.Stale?) ==>
              && g.actors.Keys == h.actors.Keys && Alone(h, a, read, moved, steps) == Alone(g, a, read, moved, steps - 3)
              && var seen := if At(h, HostJson).None? then SawAbsent
                             else if At(h, HostJson).value.Record? then SawStale(Some(At(h, HostJson).value.owner))
                             else SawStale(None);
                 Stands(h, g, a, Linking(seen), h.files[Tmp(a) := Record(a)])
  {
    hide Alone;
    var looked := Step(h, Look(a)).value;
    OneStep(h, a, read, moved, steps);
    assert looked == h.(actors := h.actors[a := Actor(true, Looked(At(h, HostJson)))]);
    var judged := Step(looked, Classify(a, read)).value;
    OneStep(looked, a, read, moved, steps - 1);
    g := judged;
    if judged.actors[a].pc.Done? {
      Answered(judged, a, read, moved, steps - 2);
    } else {
      g := Step(judged, WriteTmp(a)).value;
      OneStep(judged, a, read, moved, steps - 2);
    }
  }

  /** The link of a private record onto a free `host.json`, and the sweep behind it. */
  lemma Publishes(h: Home, a: nat, read: Verdict, moved: Verdict, steps: nat) returns (g: Home)
    requires a in h.actors && h.actors[a].alive && HostJson !in h.files && steps >= 2
    requires h.actors[a].pc.Linking? || h.actors[a].pc.Publishing?
    ensures Alone(h, a, read, moved, steps) == Some(g)
    ensures Stands(h, g, a, Owning, h.files[HostJson := Record(a)] - {Tmp(a)})
  {
    hide Alone;
    var linked := Step(h, NextOf(a, h.actors[a].pc, read, moved).value).value;
    OneStep(h, a, read, moved, steps);
    g := Step(linked, Sweep(a)).value;
    OneStep(linked, a, read, moved, steps - 1);
    Answered(g, a, read, moved, steps - 2);
  }

  /** The failed link, the move aside and the judgement of what moved. */
  lemma Moves(h: Home, a: nat, read: Verdict, moved: Verdict, steps: nat) returns (g: Home)
    requires a in h.actors && h.actors[a].alive && h.actors[a].pc.Linking? && HostJson in h.files && steps >= 3
    requires Truthful(h, At(h, HostJson), moved) && Reclaim(a) !in h.files
    ensures Alone(h, a, read, moved, steps) == Alone(g, a, read, moved, steps - 3)
    ensures Stands(h, g, a, Judged(h.actors[a].pc.seen, At(h, HostJson), moved), Renamed(h.files, HostJson, Reclaim(a)))
  {
    hide Alone;
    var seen := h.actors[a].pc.seen;
    var missed := Step(h, Link(a)).value;
    OneStep(h, a, read, moved, steps);
    var aside := Step(missed, Move(a)).value;
    OneStep(missed, a, read, moved, steps - 1);
    assert At(aside, Reclaim(a)) == At(h, HostJson);
    g := Step(aside, Judge(a, moved)).value;
    OneStep(aside, a, read, moved, steps - 2);
  }

  /** A claim that may go is unlinked, and the own record takes its place. */
  lemma Discards(h: Home, a: nat, read: Verdict, moved: Verdict, steps: nat) returns (g: Home)
    requires a in h.actors && h.actors[a].alive && h.actors[a].pc.Discarding? && HostJson !in h.files && steps >= 3
    ensures Alone(h, a, read, moved, steps) == Some(g)
    ensures Stands(h, g, a, Owning, (h.files - {Reclaim(a)})[HostJson := Record(a)] - {Tmp(a)})
  {
    hide Alone;
    var discarded := Step(h, Discard(a)).value;
    OneStep(h, a, read, moved, steps);
    g := Publishes(discarded, a, read, moved, steps - 1);
  }

  /** A claim that may not go is linked back, and the acquire refuses. */
  lemma Restores(h: Home, a: nat, read: Verdict, moved: Verdict, steps: nat) returns (g: Home)
    requires a in h.actors && h.actors[a].alive && h.actors[a].pc == Restoring(0)
    requires Reclaim(a) in h.files && HostJson !in h.files && steps >= 3
    ensures Alone(h, a, read, moved, steps) == Some(g)
    ensures Stands(h, g, a, Done, h.files[HostJson := h.files[Reclaim(a)]] - {Reclaim(a)} - {Tmp(a)})
  {
    hide Alone;
    var back := Step(h, Restore(a)).value;
    OneStep(h, a, read, moved, steps);
    var unclaimed := Step(back, Unclaim(a)).value;
    OneStep(back, a, read, moved, steps - 1);
    g := Step(unclaimed, Sweep(a)).value;
    OneStep(unclaimed, a, read, moved, steps - 2);
    Answered(g, a, read, moved, steps - 3);
  }

  /** A home an acquire takes over: no owner record, or one judged stale when read and when moved. */
  ghost predicate Takeable(content: Option<Content>, read: Verdict, moved: Verdict) {
    match content
    case None => true
    case Some(Invalid) => true
    case Some(NonRegular) => false
    case Some(Record(_)) => read.Stale? && moved.Stale?
  }

  /** What an acquire leaves: the home taken over, or as it was but for what is no regular file. */
  ghost predicate Concludes(h: Home, g: Home, a: nat, took: bool) {
    var content := At(h, HostJson);
    && a in g.actors && g.actors[a] == Actor(true, if took then Owning else Done) && OthersUntouched(h, g, a)
    && At(g, HostJson) == (if took then Some(Record(a)) else if content == Some(NonRegular) then None else content)
    && At(g, Reclaim(a)) == (if content == Some(NonRegular) then content else None)
  }

  /**
   One acquire, alone. From any home the protocol reaches, a fresh actor ends as the owner, its
   record at `host.json`, if and only if the home held no record or a stale one. Otherwise it
   refuses: a record stays where it was, and what is no regular file is left at the claim path.
   */
  lemma AcquireIff(h: Home, a: nat, read: Verdict, moved: Verdict)
    requires HomeOk(h) && a !in h.actors
    requires Truthful(h, At(h, HostJson), read) && Truthful(h, At(h, HostJson), moved)
    ensures At(h, HostJson) != Some(Record(a))
    ensures var arrived := Step(h, Arrive(a));
            && arrived.Some? && Alone(arrived.value, a, read, moved, STEPS).Some?
            && Concludes(h, Alone(arrived.value, a, read, moved, STEPS).value, a, Takeable(At(h, HostJson), read, moved))
  {
    hide Alone, Step, Truthful, Concludes, HomeOk;
    var start := Arrival(h, a, read, moved);
    var content := At(h, HostJson);
    if content.Some? && content.value.Record? && !read.Stale? {
      RefusesAtOnce(h, start, a, read, moved);
    } else if content.None? {
      TakesFree(h, start, a, read, moved);
    } else {
      ReclaimEnds(h, start, a, read, moved);
    }
  }

  ghost predicate Arrived(h: Home, start: Home, a: nat) {
    a !in h.actors && start == h.(actors := h.actors[a := Actor(true, Fresh)]) && Reclaim(a) !in h.files
  }

  lemma Arrival(h: Home, a: nat, read: Verdict, moved: Verdict) returns (start: Home)
    requires HomeOk(h) && a !in h.actors
    requires Truthful(h, At(h, HostJson), read) && Truthful(h, At(h, HostJson), moved)
    ensures Step(h, Arrive(a)) == Some(start) && Arrived(h, start, a)
    ensures At(h, HostJson) != Some(Record(a))
    ensures Truthful(start, At(h, HostJson), read) && Truthful(start, At(h, HostJson), moved)
  {
    start := h.(actors := h.actors[a := Actor(true, Fresh)]);
  }

  lemma RefusesAtOnce(h: Home, start: Home, a: nat, read: Verdict, moved: Verdict)
    requires Arrived(h, start, a) && Truthful(start, At(h, HostJson), read)
    requires At(h, HostJson).Some? && At(h, HostJson).value.Record? && !read.Stale?
    ensures Alone(start, a, read, moved, STEPS).Some?
    ensures Concludes(h, Alone(start, a, read, moved, STEPS).value, a, false)
  {
    hide Alone, Truthful;
    var g := Observes(start, a, read, moved, STEPS);
  }

  lemma TakesFree(h: Home, start: Home, a: nat, read: Verdict, moved: Verdict)
    requires Arrived(h, start, a) && Truthful(start, At(h, HostJson), read) && At(h, HostJson).None?
    ensures Alone(start, a, read, moved, STEPS).Some?
    ensures Concludes(h, Alone(start, a, read, moved, STEPS).value, a, true)
  {
    hide Alone, Truthful;
    var linking := Observes(start, a, read, moved, STEPS);
    var g := Publishes(linking, a, read, moved, STEPS - 3);
  }

  /** An acquire over something: the claim is discarded, left aside or restored. */
  lemma ReclaimEnds(h: Home, start: Home, a: nat, read: Verdict, moved: Verdict)
    requires Arrived(h, start, a) && Truthful(start, At(h, HostJson), read) && Truthful(start, At(h, HostJson), moved)
    requires At(h, HostJson).Some? && (At(h, HostJson).value.Record? ==> read.Stale?)
    ensures Alone(start, a, read, moved, STEPS).Some?
    ensures Concludes(h, Alone(start, a, read, moved, STEPS).value, a, Takeable(At(h, HostJson), read, moved))
  {
    hide Alone, Concludes;
    var linking := Observes(start, a, read, moved, STEPS);
    var judged := Moves(linking, a, read, moved, STEPS - 3);
    match At(h, HostJson).value
    case Invalid => TakesAfterDiscard(h, judged, a, read, moved);
    case NonRegular =>
      var g := LeavesAside(judged, a, read, moved, STEPS - 6);
      AsideConcludes(h, g, a);
    case Record(b) =>
      if moved.Stale? {
        TakesAfterDiscard(h, judged, a, read, moved);
      } else {
        var g := Restores(judged, a, read, moved, STEPS - 6);
        RestoredConcludes(h, g, a);
      }
  }

  /** The files behind a move aside of the home `h`. */
  ghost function Aside(h: Home, a: nat): map<Name, Content>
    requires HostJson in h.files
  {
    Renamed(h.files[Tmp(a) := Record(a)], HostJson, Reclaim(a))
  }

  lemma TakesAfterDiscard(h: Home, judged: Home, a: nat, read: Verdict, moved: Verdict)
    requires HostJson in h.files && h.files[HostJson] != NonRegular
    requires a in judged.actors && judged.actors[a] == Actor(true, Discarding) && judged.files == Aside(h, a)
    ensures Alone(judged, a, read, moved, STEPS - 6).Some?
    ensures Concludes(h, Alone(judged, a, read, moved, STEPS - 6).value, a, true)
  {
    hide Alone;
    var g := Discards(judged, a, read, moved, STEPS - 6);
  }

  lemma AsideConcludes(h: Home, g: Home, a: nat)
    requires At(h, HostJson) == Some(NonRegular)
    requires a in g.actors && g.actors[a] == Actor(true, Done) && g.files == Aside(h, a) - {Tmp(a)}
    ensures Concludes(h, g, a, false)
  {
  }

  lemma RestoredConcludes(h: Home, g: Home, a: nat)
    requires HostJson in h.files && h.files[HostJson].Record?
    requires a in g.actors && g.actors[a] == Actor(true, Done)
    requires g.files == Aside(h, a)[HostJson := h.files[HostJson]] - {Reclaim(a)} - {Tmp(a)}
    ensures Concludes(h, g, a, false)
  {
  }

  lemma LeavesAside(h: Home, a: nat, read: Verdict, moved: Verdict, steps: nat) returns (g: Home)
    requires a in h.actors && h.actors[a].alive && h.actors[a].pc == Sweeping(false) && steps >= 1
    ensures Alone(h, a, read, moved, steps) == Some(g)
    ensures Stands(h, g, a, Done, h.files - {Tmp(a)})
  {
    hide Alone;
    g := Step(h, Sweep(a)).value;
    OneStep(h, a, read, moved, steps);
    Answered(g, a, read, moved, steps - 1);
  }

  // --- one release ------------------------------------------------------------------------------------

  /** What a release puts back: another host's record that it does not judge stale. */
  ghost predicate Returned(a: nat, content: Option<Content>, moved: Verdict) {
    content.Some? && content.value.Record? && content.value.owner != a && !moved.Stale?
  }

  /** What a release leaves of the home. */
  ghost predicate Leaves(h: Home, g: Home, a: nat, moved: Verdict) {
    var content := At(h, HostJson);
    && a in g.actors && g.actors[a] == Actor(true, Done) && OthersUntouched(h, g, a)
    && At(g, HostJson) == (if Returned(a, content, moved) then content else None)
    && At(g, Release(a)) == (if content == Some(NonRegular) then content else None)
    && At(g, Tmp(a)) == At(h, Tmp(a)) && At(g, Reclaim(a)) == At(h, Reclaim(a))
  }

  /**
   One release, alone. An owner's release ends with nothing at `host.json`, unless another
   host's live record stands there, which it puts back; what is no regular file is left at
   the claim path, and nothing else is touched.
   */
  lemma ReleaseIff(h: Home, a: nat, moved: Verdict)
    requires HomeOk(h) && a in h.actors && h.actors[a] == Actor(true, Owning)
    requires Truthful(h, At(h, HostJson), moved)
    ensures var begun := Step(h, BeginRelease(a));
            && begun.Some? && Alone(begun.value, a, moved, moved, STEPS).Some?
            && Leaves(h, Alone(begun.value, a, moved, moved, STEPS).value, a, moved)
  {
    hide Alone, HomeOk, Leaves;
    assert Release(a) !in h.files by { NoClaimYet(h, a); }
    if HostJson !in h.files {
      var begun := Step(h, BeginRelease(a)).value;
      Answered(begun, a, moved, moved, STEPS);
      NothingToMove(h, begun, a, moved);
    } else {
      var judged := ReleaseMoves(h, a, moved);
      var content := h.files[HostJson];
      if content.NonRegular? {
        Answered(judged, a, moved, moved, STEPS - 1);
        LeftAside(h, judged, a, moved);
      } else if content.Record? && content.owner != a && !moved.Stale? {
        ReleaseRestores(h, judged, a, moved);
      } else {
        ReleaseDiscards(h, judged, a, moved);
      }
    }
  }

  lemma NoClaimYet(h: Home, a: nat)
    requires HomeOk(h) && a in h.actors && h.actors[a].pc.Owning?
    ensures Release(a) !in h.files
  {
  }

  lemma NothingToMove(h: Home, g: Home, a: nat, moved: Verdict)
    requires HostJson !in h.files && Release(a) !in h.files && g.files == h.files
    requires a in g.actors && g.actors[a] == Actor(true, Done)
    ensures Leaves(h, g, a, moved)
  {
  }

  lemma ReleaseMoves(h: Home, a: nat, moved: Verdict) returns (judged: Home)
    requires a in h.actors && h.actors[a] == Actor(true, Owning) && HostJson in h.files
    requires Truthful(h, At(h, HostJson), moved)
    ensures Step(h, BeginRelease(a)).Some?
    ensures Alone(Step(h, BeginRelease(a)).value, a, moved, moved, STEPS) == Alone(judged, a, moved, moved, STEPS - 1)
    ensures a in judged.actors && judged.actors[a] == Actor(true, ReleaseJudged(a, At(h, HostJson), moved))
    ensures judged.files == Renamed(h.files, HostJson, Release(a))
  {
    hide Alone;
    var begun := Step(h, BeginRelease(a)).value;
    assert At(begun, Release(a)) == At(h, HostJson);
    judged := Step(begun, JudgeRelease(a, moved)).value;
    OneStep(begun, a, moved, moved, STEPS);
  }

  lemma LeftAside(h: Home, g: Home, a: nat, moved: Verdict)
    requires At(h, HostJson) == Some(NonRegular) && g.files == Renamed(h.files, HostJson, Release(a))
    requires a in g.actors && g.actors[a] == Actor(true, Done)
    ensures Leaves(h, g, a, moved)
  {
  }

  lemma ReleaseDiscards(h: Home, judged: Home, a: nat, moved: Verdict)
    requires HostJson in h.files && judged.files == Renamed(h.files, HostJson, Release(a))
    requires h.files[HostJson] != NonRegular && !Returned(a, At(h, HostJson), moved)
    requires a in judged.actors && judged.actors[a] == Actor(true, ReleaseDiscarding)
    ensures Alone(judged, a, moved, moved, STEPS - 1).Some?
    ensures Leaves(h, Alone(judged, a, moved, moved, STEPS - 1).value, a, moved)
  {
    hide Alone;
    OneStep(judged, a, moved, moved, STEPS - 1);
    Answered(Step(judged, DiscardRelease(a)).value, a, moved, moved, STEPS - 2);
  }

  /** A release's claim linked back and unlinked. */
  lemma LinksBack(judged: Home, a: nat, moved: Verdict) returns (g: Home)
    requires a in judged.actors && judged.actors[a] == Actor(true, ReleaseRestoring(0))
    requires Release(a) in judged.files && HostJson !in judged.files
    ensures Alone(judged, a, moved, moved, STEPS - 1) == Some(g)
    ensures a in g.actors && g.actors[a] == Actor(true, Done)
    ensures g.files == judged.files[HostJson := judged.files[Release(a)]] - {Release(a)}
  {
    hide Alone;
    var back := Step(judged, RestoreRelease(a)).value;
    OneStep(judged, a, moved, moved, STEPS - 1);
    g := Step(back, UnclaimRelease(a)).value;
    OneStep(back, a, moved, moved, STEPS - 2);
    Answered(g, a, moved, moved, STEPS - 3);
  }

  lemma ReleaseRestores(h: Home, judged: Home, a: nat, moved: Verdict)
    requires HostJson in h.files && judged.files == Renamed(h.files, HostJson, Release(a))
    requires Returned(a, At(h, HostJson), moved) && Release(a) !in h.files
    requires a in judged.actors && judged.actors[a] == Actor(true, ReleaseRestoring(0))
    ensures Alone(judged, a, moved, moved, STEPS - 1).Some?
    ensures Leaves(h, Alone(judged, a, moved, moved, STEPS - 1).value, a, moved)
  {
    hide Alone;
    var g := LinksBack(judged, a, moved);
  }
}
