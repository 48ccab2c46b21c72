/**
 Over any number of hosts, any interleaving and any crashes: the record of a host that
 is alive, has published it and has not begun its release is always at `host.json` or
 at a claim path nobody is about to unlink.
 */
module OwnerSafety {
  import opened Wrappers
  import opened Owners

  /**
   One actor's step: its place moves on within its protocol, no other actor changes, and
   the files are those of before but for one fresh name.
   */
  ghost predicate OneStep(h: Home, next: Home, a: nat, made: Name) {
    && a in h.actors && a in next.actors && next.actors == h.actors[a := next.actors[a]]
    && (next.actors[a].alive ==> h.actors[a].alive)
    && (forall name :: name in next.files ==>
          (name in h.files && next.files[name] == h.files[name])
          || (name == made && Arrived(h, Some(next.files[name]))))
    && var pc := next.actors[a].pc;
       && (BeforeMove(pc) ==> BeforeMove(h.actors[a].pc)) && (BeforeRelease(pc) ==> BeforeRelease(h.actors[a].pc))
       && (pc.Looked? ==> Arrived(h, pc.content))
       && (pc.Discarding? ==> h.actors[a].pc.Discarding?)
       && (pc.ReleaseDiscarding? ==> h.actors[a].pc.ReleaseDiscarding?)
       && match made {
            case HostJson => true
            case Tmp(_) => true
            case Reclaim(b) => b == a && !BeforeMove(pc)
            case Release(b) => b == a && !BeforeRelease(pc)
          }
       && (pc.Discarding? ==> made != Reclaim(a)) && (pc.ReleaseDiscarding? ==> made != Release(a))
  }

  lemma ClaimsCarry(h: Home, next: Home, a: nat, made: Name)
    requires ClaimsOk(h) && OneStep(h, next, a, made)
    ensures ClaimsOk(next)
  {
    hide Arrived, BeforeMove, BeforeRelease;
  }

  lemma DiscardsCarry(h: Home, next: Home, a: nat, made: Name)
    requires DiscardsOk(h) && OneStep(h, next, a, made)
    ensures DiscardsOk(next)
  {
    hide Arrived, BeforeMove, BeforeRelease;
  }

  lemma RecordsCarry(h: Home, next: Home, a: nat, made: Name)
    requires RecordsOk(h) && OneStep(h, next, a, made)
    ensures RecordsOk(next)
  {
    hide BeforeMove, BeforeRelease;
  }

  lemma PartsCarry(h: Home, next: Home, a: nat, made: Name)
    requires HomeOk(h) && OneStep(h, next, a, made)
    ensures ClaimsOk(next) && DiscardsOk(next) && RecordsOk(next)
  {
    hide ClaimsOk, DiscardsOk, RecordsOk, OneStep, Kept;
    ClaimsCarry(h, next, a, made);
    DiscardsCarry(h, next, a, made);
    RecordsCarry(h, next, a, made);
  }

  /** While no claim of the actor becomes doomed, every lasting name lasts. */
  lemma NamesLast(h: Home, next: Home, a: nat)
    requires a in h.actors && a in next.actors && next.actors == h.actors[a := next.actors[a]]
    requires var pc := next.actors[a].pc;
             !pc.Discarding? && !pc.Unclaiming? && !pc.ReleaseDiscarding? && !pc.ReleaseUnclaiming?
    ensures forall name :: Lasting(h, name) ==> Lasting(next, name)
  {
  }

  /** While the actor does not begin to hold its record, nobody does. */
  lemma HoldersStay(h: Home, next: Home, a: nat)
    requires a in h.actors && a in next.actors && next.actors == h.actors[a := next.actors[a]]
    requires Holds(next, a) ==> Holds(h, a)
    ensures forall b :: Holds(next, b) ==> Holds(h, b)
  {
  }

  /** Moves where one actor's place in its protocol changes and no file does. */
  lemma PlaceKeeps(h: Home, a: nat, pc: Pc)
    requires HomeOk(h) && a in h.actors
    requires !pc.Discarding? && !pc.Unclaiming? && !pc.ReleaseDiscarding? && !pc.ReleaseUnclaiming?
    requires !pc.Owning? && pc != Sweeping(true)
    requires BeforeMove(pc) ==> BeforeMove(h.actors[a].pc)
    requires BeforeRelease(pc) ==> BeforeRelease(h.actors[a].pc)
    requires pc.Looked? ==> Arrived(h, pc.content)
    ensures HomeOk(Put(h, a, pc))
  {
    var next := Put(h, a, pc);
    forall b | Holds(next, b) ensures Kept(next, b) {
      assert Holds(h, b);
      var name :| name in h.files && h.files[name] == Record(b) && Lasting(h, name);
      assert Lasting(next, name);
    }
  }

  /** A claim may be discarded when it holds no live actor's record, or the releaser's own. */
  lemma DiscardingKeeps(h: Home, a: nat)
    requires HomeOk(h) && a in h.actors && h.actors[a].pc.Judging?
    requires forall b :: At(h, Reclaim(a)) == Some(Record(b)) ==> b in h.actors && !h.actors[b].alive
    ensures HomeOk(Put(h, a, Discarding))
  {
    var next := Put(h, a, Discarding);
    forall b | Holds(next, b) ensures Kept(next, b) {
      assert Holds(h, b);
      var name :| name in h.files && h.files[name] == Record(b) && Lasting(h, name);
      assert Lasting(next, name);
    }
  }

  lemma ReleaseDiscardingKeeps(h: Home, a: nat)
    requires HomeOk(h) && a in h.actors && h.actors[a].pc.ReleaseJudging?
    requires forall b :: At(h, Release(a)) == Some(Record(b)) ==> a == b || (b in h.actors && !h.actors[b].alive)
    ensures HomeOk(Put(h, a, ReleaseDiscarding))
  {
    var next := Put(h, a, ReleaseDiscarding);
    forall b | Holds(next, b) ensures Kept(next, b) {
      assert Holds(h, b);
      var name :| name in h.files && h.files[name] == Record(b) && Lasting(h, name);
      assert Lasting(next, name);
    }
  }

  lemma JudgeKeeps(h: Home, a: nat, verdict: Verdict)
    requires HomeOk(h) && Step(h, Judge(a, verdict)).Some?
    ensures HomeOk(Step(h, Judge(a, verdict)).value)
  {
    hide HomeOk;
    assert RecordsOk(h) by { Parts(h); }
    var pc := Judged(h.actors[a].pc.seen, At(h, Reclaim(a)), verdict);
    if pc.Discarding? {
      DiscardingKeeps(h, a);
    } else {
      PlaceKeeps(h, a, pc);
    }
  }

  lemma JudgeReleaseKeeps(h: Home, a: nat, verdict: Verdict)
    requires HomeOk(h) && Step(h, JudgeRelease(a, verdict)).Some?
    ensures HomeOk(Step(h, JudgeRelease(a, verdict)).value)
  {
    hide HomeOk;
    assert RecordsOk(h) by { Parts(h); }
    var pc := ReleaseJudged(a, At(h, Release(a)), verdict);
    if pc.ReleaseDiscarding? {
      ReleaseDiscardingKeeps(h, a);
    } else {
      PlaceKeeps(h, a, pc);
    }
  }

  lemma Parts(h: Home)
    requires HomeOk(h)
    ensures ClaimsOk(h) && DiscardsOk(h) && RecordsOk(h)
  {
    hide ClaimsOk, DiscardsOk, RecordsOk, Kept;
  }

  /** Publishing onto an absent `host.json` adds a name and takes none. */
  lemma LinkedKeeps(h: Home, a: nat)
    requires HomeOk(h) && a in h.actors && HostJson !in h.files
    requires h.actors[a].pc.Linking? || h.actors[a].pc.Publishing?
    ensures HomeOk(Put(h.(files := h.files[HostJson := Record(a)]), a, Sweeping(true)))
  {
    var next := Put(h.(files := h.files[HostJson := Record(a)]), a, Sweeping(true));
    PartsCarry(h, next, a, HostJson);
    NamesLast(h, next, a);
    hide ClaimsOk, DiscardsOk, RecordsOk;
    assert Lasting(next, HostJson) && next.files[HostJson] == Record(a);
    forall b | Holds(next, b) ensures Kept(next, b) {
      if b != a {
        OtherHolds(h, next, a, b);
        hide Lasting, Holds;
        var name :| name in h.files && h.files[name] == Record(b) && Lasting(h, name);
        assert next.files[name] == Record(b);
      }
    }
  }

  lemma OtherHolds(h: Home, next: Home, a: nat, b: nat)
    requires a in h.actors && a in next.actors && next.actors == h.actors[a := next.actors[a]] && a != b
    ensures Holds(next, b) <==> Holds(h, b)
  {
  }

  lemma TryLinkKeeps(h: Home, a: nat, lost: Pc)
    requires HomeOk(h) && a in h.actors && (h.actors[a].pc.Linking? || h.actors[a].pc.Publishing?)
    requires lost == Sweeping(false) || (lost.Moving? && h.actors[a].pc.Linking?)
    ensures HomeOk(TryLink(h, a, lost))
  {
    hide HomeOk;
    if HostJson in h.files {
      PlaceKeeps(h, a, lost);
    } else {
      LinkedKeeps(h, a);
    }
  }

  /** Moving `host.json` aside keeps its record under a name that lasts. */
  lemma MovedKeeps(h: Home, a: nat)
    requires HomeOk(h) && a in h.actors && HostJson in h.files && h.actors[a].pc.Moving?
    ensures HomeOk(Put(h.(files := Renamed(h.files, HostJson, Reclaim(a))), a, Judging(h.actors[a].pc.seen)))
  {
    var next := Put(h.(files := Renamed(h.files, HostJson, Reclaim(a))), a, Judging(h.actors[a].pc.seen));
    PartsCarry(h, next, a, Reclaim(a));
    NamesLast(h, next, a);
    HoldersStay(h, next, a);
    hide DiscardsOk, RecordsOk, Holds;
    assert Reclaim(a) !in h.files;
    forall b | Holds(next, b) ensures Kept(next, b) {
      assert Holds(h, b);
      var name :| name in h.files && h.files[name] == Record(b) && Lasting(h, name);
      var kept := if name == HostJson then Reclaim(a) else name;
      assert Lasting(next, kept) && next.files[kept] == Record(b);
    }
  }

  lemma ReleaseMovedKeeps(h: Home, a: nat)
    requires HomeOk(h) && a in h.actors && HostJson in h.files && h.actors[a].pc.Owning?
    ensures HomeOk(Put(h.(files := Renamed(h.files, HostJson, Release(a))), a, ReleaseJudging))
  {
    var next := Put(h.(files := Renamed(h.files, HostJson, Release(a))), a, ReleaseJudging);
    PartsCarry(h, next, a, Release(a));
    NamesLast(h, next, a);
    HoldersStay(h, next, a);
    hide DiscardsOk, RecordsOk, Holds;
    assert Release(a) !in h.files;
    forall b | Holds(next, b) ensures Kept(next, b) {
      assert Holds(h, b);
      var name :| name in h.files && h.files[name] == Record(b) && Lasting(h, name);
      var kept := if name == HostJson then Release(a) else name;
      assert Lasting(next, kept) && next.files[kept] == Record(b);
    }
  }

  lemma UnlinkIsOneStep(h: Home, a: nat, name: Name, pc: Pc)
    requires a in h.actors && (pc.Publishing? || pc.Sweeping? || pc.Owning? || pc.Done?)
    requires BeforeMove(pc) ==> BeforeMove(h.actors[a].pc)
    requires BeforeRelease(pc) ==> BeforeRelease(h.actors[a].pc)
    ensures OneStep(h, Put(h.(files := h.files - {name}), a, pc), a, HostJson)
  {
  }

  /** Unlinking a name that does not last takes no holder's record away. */
  lemma UnlinkedKeeps(h: Home, a: nat, name: Name, pc: Pc)
    requires HomeOk(h) && a in h.actors && !Lasting(h, name)
    requires (h.actors[a].pc.Discarding? && pc.Publishing?) || (h.actors[a].pc.Unclaiming? && pc == Sweeping(false))
          || ((h.actors[a].pc.ReleaseDiscarding? || h.actors[a].pc.ReleaseUnclaiming?) && pc.Done?)
          || (h.actors[a].pc.Sweeping? && pc == if h.actors[a].pc.acquired then Owning else Done)
    ensures HomeOk(Put(h.(files := h.files - {name}), a, pc))
  {
    var next := Put(h.(files := h.files - {name}), a, pc);
    UnlinkIsOneStep(h, a, name, pc);
    PartsCarry(h, next, a, HostJson);
    NamesLast(h, next, a);
    HoldersStay(h, next, a);
    hide ClaimsOk, DiscardsOk, RecordsOk, OneStep, Holds, Lasting;
    forall b | Holds(next, b) ensures Kept(next, b) {
      assert Holds(h, b);
      var kept :| kept in h.files && h.files[kept] == Record(b) && Lasting(h, kept);
      assert kept != name;
      assert next.files[kept] == Record(b);
    }
  }

  /** A restored claim is at `host.json` before it is unlinked. */
  /** The restored claim is the one name that no longer lasts. */
  lemma OthersLast(h: Home, next: Home, a: nat, claim: Name)
    requires a in h.actors && a in next.actors && next.actors == h.actors[a := next.actors[a]]
    requires (claim == Reclaim(a) && h.actors[a].pc.Restoring? && next.actors[a].pc == Unclaiming)
          || (claim == Release(a) && h.actors[a].pc.ReleaseRestoring? && next.actors[a].pc == ReleaseUnclaiming)
    ensures forall name :: Lasting(h, name) && name != claim ==> Lasting(next, name)
  {
  }

  lemma RestoredKeeps(h: Home, a: nat, claim: Name, pc: Pc)
    requires HomeOk(h) && a in h.actors && claim in h.files && HostJson !in h.files
    requires (claim == Reclaim(a) && h.actors[a].pc.Restoring? && pc == Unclaiming)
          || (claim == Release(a) && h.actors[a].pc.ReleaseRestoring? && pc == ReleaseUnclaiming)
    ensures HomeOk(Put(h.(files := h.files[HostJson := h.files[claim]]), a, pc))
  {
    var next := Put(h.(files := h.files[HostJson := h.files[claim]]), a, pc);
    PartsCarry(h, next, a, HostJson);
    HoldersStay(h, next, a);
    OthersLast(h, next, a, claim);
    hide ClaimsOk, DiscardsOk, RecordsOk, Holds;
    forall b | Holds(next, b) ensures Kept(next, b) {
      assert Holds(h, b);
      var name :| name in h.files && h.files[name] == Record(b) && Lasting(h, name);
      var kept := if name == claim then HostJson else name;
      assert Lasting(next, kept) && next.files[kept] == Record(b);
    }
  }

  lemma RestoreKeeps(h: Home, a: nat, releasing: bool)
    requires HomeOk(h) && a in h.actors
    requires if releasing then h.actors[a].pc.ReleaseRestoring? else h.actors[a].pc.Restoring?
    ensures var k := h.actors[a].pc.attempts;
            HomeOk(if releasing then RestoreOnce(h, a, Release(a), k, ReleaseRestoring(k + 1), Done, ReleaseUnclaiming)
                   else RestoreOnce(h, a, Reclaim(a), k, Restoring(k + 1), Sweeping(false), Unclaiming))
  {
    hide HomeOk;
    var k, claim := h.actors[a].pc.attempts, if releasing then Release(a) else Reclaim(a);
    if claim in h.files && HostJson !in h.files {
      RestoredKeeps(h, a, claim, if releasing then ReleaseUnclaiming else Unclaiming);
    } else if claim in h.files && k + 1 < RESTORE_ATTEMPTS {
      PlaceKeeps(h, a, if releasing then ReleaseRestoring(k + 1) else Restoring(k + 1));
    } else {
      PlaceKeeps(h, a, if releasing then Done else Sweeping(false));
    }
  }

  lemma TmpKeeps(h: Home, a: nat)
    requires HomeOk(h) && a in h.actors && h.actors[a].pc.Observed?
    ensures HomeOk(Put(h.(files := h.files[Tmp(a) := Record(a)]), a, Linking(h.actors[a].pc.seen)))
  {
    var next := Put(h.(files := h.files[Tmp(a) := Record(a)]), a, Linking(h.actors[a].pc.seen));
    PartsCarry(h, next, a, Tmp(a));
    NamesLast(h, next, a);
    HoldersStay(h, next, a);
    hide ClaimsOk, DiscardsOk, RecordsOk, Holds;
    forall b | Holds(next, b) ensures Kept(next, b) {
      assert Holds(h, b);
      var name :| name in h.files && h.files[name] == Record(b) && Lasting(h, name);
      assert Lasting(next, name) && next.files[name] == Record(b);
    }
  }

  lemma ArriveKeeps(h: Home, a: nat)
    requires HomeOk(h) && a !in h.actors
    ensures HomeOk(h.(actors := h.actors[a := Actor(true, Fresh)]))
  {
    var next := h.(actors := h.actors[a := Actor(true, Fresh)]);
    forall b | Holds(next, b) ensures Kept(next, b) {
      assert Holds(h, b);
      var name :| name in h.files && h.files[name] == Record(b) && Lasting(h, name);
      assert Lasting(next, name);
    }
  }

  lemma CrashKeeps(h: Home, a: nat)
    requires HomeOk(h) && a in h.actors
    ensures HomeOk(h.(actors := h.actors[a := h.actors[a].(alive := false)]))
  {
    var next := h.(actors := h.actors[a := h.actors[a].(alive := false)]);
    PartsCarry(h, next, a, HostJson);
    hide ClaimsOk, DiscardsOk, RecordsOk;
    forall b | Holds(next, b) ensures Kept(next, b) {
      assert Holds(h, b);
      var name :| name in h.files && h.files[name] == Record(b) && Lasting(h, name);
      assert Lasting(next, name);
    }
  }

  lemma LitterKeeps(h: Home, content: Content)
    requires HomeOk(h) && HostJson !in h.files && !content.Record?
    ensures HomeOk(h.(files := h.files[HostJson := content]))
  {
    var next := h.(files := h.files[HostJson := content]);
    forall b | Holds(next, b) ensures Kept(next, b) {
      assert Holds(h, b);
      var name :| name in h.files && h.files[name] == Record(b) && Lasting(h, name);
      assert Lasting(next, name) && next.files[name] == Record(b);
    }
  }

  lemma ObserveKeeps(h: Home, action: Action)
    requires HomeOk(h) && StepObserve(h, action).Some?
    ensures HomeOk(StepObserve(h, action).value)
  {
    hide HomeOk;
    Parts(h);
    match action
    case Look(a) => PlaceKeeps(h, a, Looked(At(h, HostJson)));
    case Classify(a, verdict) => PlaceKeeps(h, a, Classified(h.actors[a].pc.content, verdict));
    case WriteTmp(a) => TmpKeeps(h, a);
    case _ =>
  }

  lemma ReclaimKeeps(h: Home, action: Action)
    requires HomeOk(h) && StepReclaim(h, action).Some?
    ensures HomeOk(StepReclaim(h, action).value)
  {
    hide HomeOk, TryLink, RestoreOnce, Renamed, Judged;
    match action
    case Link(a) => TryLinkKeeps(h, a, Moving(h.actors[a].pc.seen));
    case Move(a) => if HostJson in h.files { MovedKeeps(h, a); } else { PlaceKeeps(h, a, Publishing); }
    case Judge(a, verdict) => JudgeKeeps(h, a, verdict);
    case Discard(a) => UnlinkedKeeps(h, a, Reclaim(a), Publishing);
    case Publish(a) => TryLinkKeeps(h, a, Sweeping(false));
    case Restore(a) => RestoreKeeps(h, a, false);
    case Unclaim(a) => UnlinkedKeeps(h, a, Reclaim(a), Sweeping(false));
    case Sweep(a) => UnlinkedKeeps(h, a, Tmp(a), if h.actors[a].pc.acquired then Owning else Done);
    case _ =>
  }

  lemma ReleaseKeeps(h: Home, action: Action)
    requires HomeOk(h) && StepRelease(h, action).Some?
    ensures HomeOk(StepRelease(h, action).value)
  {
    hide HomeOk, RestoreOnce, Renamed, ReleaseJudged;
    match action
    case BeginRelease(a) => if HostJson in h.files { ReleaseMovedKeeps(h, a); } else { PlaceKeeps(h, a, Done); }
    case JudgeRelease(a, verdict) => JudgeReleaseKeeps(h, a, verdict);
    case DiscardRelease(a) => UnlinkedKeeps(h, a, Release(a), Done);
    case RestoreRelease(a) => RestoreKeeps(h, a, true);
    case UnclaimRelease(a) => UnlinkedKeeps(h, a, Release(a), Done);
    case _ =>
  }

  lemma StepKeeps(h: Home, action: Action)
    requires HomeOk(h) && Step(h, action).Some?
    ensures HomeOk(Step(h, action).value)
  {
    hide HomeOk, StepObserve, StepReclaim, StepRelease;
    match action
    case Arrive(a) => ArriveKeeps(h, a);
    case Crash(a) => CrashKeeps(h, a);
    case Litter(content) => LitterKeeps(h, content);
    case _ =>
      if StepObserve(h, action).Some? && Step(h, action) == StepObserve(h, action) {
        ObserveKeeps(h, action);
      } else if StepRelease(h, action).Some? && Step(h, action) == StepRelease(h, action) {
        ReleaseKeeps(h, action);
      } else {
        ReclaimKeeps(h, action);
      }
  }

  lemma {:induction false} ExecuteKeeps(actions: seq<Action>)
    requires Execute(actions).Some?
    ensures HomeOk(Execute(actions).value)
  {
    hide HomeOk, Step;
    if actions == [] {
      EmptyIsOk();
    } else {
      var shorter := actions[..|actions| - 1];
      ExecuteKeeps(shorter);
      StepKeeps(Execute(shorter).value, actions[|actions| - 1]);
    }
  }

  lemma EmptyIsOk()
    ensures HomeOk(Home(map[], map[]))
  {
  }

  /**
   At every point of every run, a live host that has published its record and not begun
   to release it has that record at `host.json` or at some claim path.
   */
  lemma RecordIsNeverLost(actions: seq<Action>, a: nat)
    requires Execute(actions).Some? && Holds(Execute(actions).value, a)
    ensures exists name :: name in Execute(actions).value.files && !name.Tmp?
                           && Execute(actions).value.files[name] == Record(a)
  {
    hide Execute, ClaimsOk, DiscardsOk, RecordsOk;
    ExecuteKeeps(actions);
    var h := Execute(actions).value;
    var name :| name in h.files && h.files[name] == Record(a) && Lasting(h, name);
    assert !name.Tmp?;
  }

  /** No peer's discard removes the record of a live actor; only its own release may. */
  lemma DiscardSparesTheLiving(actions: seq<Action>, a: nat, b: nat)
    requires Execute(actions).Some? && Ready(Execute(actions).value, a) && a != b
    ensures var h := Execute(actions).value;
            && (Step(h, Discard(b)).Some? ==> At(h, Reclaim(b)) != Some(Record(a)))
            && (Step(h, DiscardRelease(b)).Some? ==> At(h, Release(b)) != Some(Record(a)))
  {
    hide Execute, ClaimsOk, RecordsOk, Kept;
    ExecuteKeeps(actions);
  }

  /** A claim that holds another record than the stale one this acquire had read goes back, stale or not. */
  lemma OnlyTheReadRecordGoes(h: Home, a: nat, b: nat, c: nat, verdict: Verdict)
    requires Ready(h, a) && h.actors[a].pc == Judging(SawStale(Some(b))) && At(h, Reclaim(a)) == Some(Record(c)) && b != c
    requires Step(h, Judge(a, verdict)).Some?
    ensures var next := Step(h, Judge(a, verdict)).value;
            && next.files == h.files && Step(next, Discard(a)).None?
            && (HostJson !in h.files ==> At(Step(next, Restore(a)).value, HostJson) == Some(Record(c)))
  {
  }
}
