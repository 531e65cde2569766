/** What a call has done for its volume when it returns, in every interleaving with
    other calls, timers and stops, as a function of what its own steps met. */
module Outcomes {
  import opened Options
  import opened Records
  import opened Protocol
  import opened Safety
  import opened Calls

  /** The thread's call is over at the end of the run, and not before. */
  ghost predicate FinishesAtEnd(cfg: Config, s: State, run: seq<Label>, t: ThreadId)
    decreases |run|
  {
    && t in s.threads
    && (if run == [] then s.threads[t] == Finished
        else s.threads[t] != Finished && FinishesAtEnd(cfg, Next(cfg, s, run[0]), run[1..], t))
  }

  /** The step meets a failure that the call reports.  Taking and giving back locks
      never fails; a digest may be blank and a download may be empty. */
  predicate StepFails(pc: Pc, c: Choice) {
    match pc
    case Publishing(_, CheckStore(l)) => c.fail || l == ""
    case Publishing(_, Restore(_)) => NoDownload(c)
    case Publishing(_, Download(_)) => NoDownload(c)
    case Publishing(_, p) =>
      c.fail && (p.ReadLink? || p.CheckLinked? || p.Resolve? || p.Record? || p.LinkUp? || p.Validate? || p.Mount?)
    case Removing(_, q) => c.fail && (q.HasVolume? || q.Unmount? || q.Unlink?)
    case _ => false
  }

  predicate OwnFails(s: State, e: Label, t: ThreadId) {
    e.Run? && e.t == t && t in s.threads && StepFails(s.threads[t], e.choice)
  }

  /** What becomes of a publish: the first failure that its own steps meet decides. */
  datatype Verdict = Succeeds | FailsEarly | FailsValidation | FailsMount

  ghost function VerdictOf(cfg: Config, s: State, run: seq<Label>, t: ThreadId): Verdict
    decreases |run|
  {
    if run == [] then Succeeds
    else if OwnFails(s, run[0], t) && s.threads[t].Publishing? then
      if s.threads[t].p.Validate? then FailsValidation
      else if s.threads[t].p.Mount? then FailsMount
      else FailsEarly
    else VerdictOf(cfg, Next(cfg, s, run[0]), run[1..], t)
  }

  /** The call's own unlink meets a failure. */
  ghost predicate UnlinkFails(cfg: Config, s: State, run: seq<Label>, t: ThreadId)
    decreases |run|
  {
    run != [] &&
      ((OwnFails(s, run[0], t) && s.threads[t].Removing? && s.threads[t].q.Unlink?) ||
       UnlinkFails(cfg, Next(cfg, s, run[0]), run[1..], t))
  }

  // ---- Steps of others ----

  /** A label that is not a step of this call leaves its volume and its program counter. */
  lemma OthersLeave(cfg: Config, s: State, e: Label, t: ThreadId, v: VolumeId)
    requires CallInv(cfg, s) && Enabled(cfg, s, e)
    requires t in s.threads && Serves(s.threads[t]) == Some(v) && !(e.Run? && e.t == t)
    requires t in Next(cfg, s, e).threads
    ensures var s' := Next(cfg, s, e);
            s'.threads[t] == s.threads[t] && SameVolume(s.db, s'.db, v) && SameMount(s, s', v)
  {
    if e.Run? {
      StepLeavesOthers(cfg, s, e.t, e.choice, v);
    }
  }

  // ---- The last part of a call ----

  /** The call has nothing left to do to its volume's link and mount. */
  predicate Ending(pc: Pc, v: VolumeId) {
    match pc
    case Finished => true
    case Publishing(r, p) => r.volume == v && ((p.UnlockLibrary? && !p.ok) || (p.UnlockVolume? && p.result.None?))
    case Removing(w, q) => w == v && (q.ScheduleLock? || q.ScheduleEntry? || q.ScheduleUnlock? || q.RemoveUnlock?)
    case Cleaning(_, _, k) => (k.ToRemove? || k.ToSchedule?) && k.v == v
    case _ => false
  }

  lemma OwnEnding(cfg: Config, s: State, t: ThreadId, c: Choice, v: VolumeId)
    requires t in s.threads && Ending(s.threads[t], v)
    ensures var s' := ThreadStep(cfg, s, t, c);
            Ending(s'.threads[t], v) && SameVolume(s.db, s'.db, v) && SameMount(s, s', v)
  {
  }

  lemma {:induction false} EndingLeaves(cfg: Config, s: State, run: seq<Label>, t: ThreadId, v: VolumeId)
    requires CallInv(cfg, s) && cfg.orderly && IsRun(cfg, s, run) && FinishesAtEnd(cfg, s, run, t)
    requires Ending(s.threads[t], v)
    ensures var z := Exec(cfg, s, run); SameVolume(s.db, z.db, v) && SameMount(s, z, v)
    decreases |run|
  {
    if run == [] {
    } else {
      var e, s' := run[0], Next(cfg, s, run[0]);
      NextKeepsCalls(cfg, s, e);
      if e.Run? && e.t == t {
        OwnEnding(cfg, s, t, e.choice, v);
      } else {
        OthersLeave(cfg, s, e, t, v);
      }
      EndingLeaves(cfg, s', run[1..], t, v);
    }
  }

  lemma {:induction false} EndingNeverUnlinks(cfg: Config, s: State, run: seq<Label>, t: ThreadId, v: VolumeId)
    requires CallInv(cfg, s) && cfg.orderly && IsRun(cfg, s, run) && FinishesAtEnd(cfg, s, run, t)
    requires Ending(s.threads[t], v)
    ensures !UnlinkFails(cfg, s, run, t)
    decreases |run|
  {
    if run == [] {
    } else {
      NextKeepsCalls(cfg, s, run[0]);
      if run[0].Run? && run[0].t == t {
        OwnEnding(cfg, s, t, run[0].choice, v);
      } else {
        OthersLeave(cfg, s, run[0], t, v);
      }
      EndingNeverUnlinks(cfg, Next(cfg, s, run[0]), run[1..], t, v);
    }
  }

  /** From the lock of `RemoveVolume`: the volume ends unlinked unless the unlink fails. */
  lemma {:induction false} RemovalUnlinks(cfg: Config, s: State, run: seq<Label>, t: ThreadId, v: VolumeId)
    requires CallInv(cfg, s) && cfg.orderly && IsRun(cfg, s, run) && FinishesAtEnd(cfg, s, run, t)
    requires s.threads[t] == Removing(v, RemoveLock) || s.threads[t] == Removing(v, Unlink)
    ensures var z := Exec(cfg, s, run);
            && SameMount(s, z, v)
            && (if UnlinkFails(cfg, s, run, t) then SameVolume(s.db, z.db, v) else v !in z.db.volumes)
    decreases |run|
  {
    var e, s' := run[0], Next(cfg, s, run[0]);
    NextKeepsCalls(cfg, s, e);
    assert Knows(cfg, s, s.threads[t]);
    if !(e.Run? && e.t == t) {
      OthersLeave(cfg, s, e, t, v);
      RemovalUnlinks(cfg, s', run[1..], t, v);
    } else if s.threads[t].q.RemoveLock? {
      RemovalUnlinks(cfg, s', run[1..], t, v);
    } else {
      EndingLeaves(cfg, s', run[1..], t, v);
      EndingNeverUnlinks(cfg, s', run[1..], t, v);
    }
  }

  // ---- Publish ----

  /** Linked to a stored library, with the record of before if there was one. */
  ghost predicate LinkedAndStored(s: State, z: State, v: VolumeId) {
    && v in z.db.volumes && z.db.volumes[v].libraryId in z.store
    && (v in s.db.volumes ==> z.db.volumes[v] == s.db.volumes[v])
  }

  ghost predicate Outcome(s: State, z: State, v: VolumeId, verdict: Verdict, unlinkFails: bool) {
    match verdict
    case Succeeds =>
      && LinkedAndStored(s, z, v) && v in z.mounts
      && z.mounts[v] == if v in s.mounts then s.mounts[v] else z.db.volumes[v].libraryId
    case FailsEarly => SameVolume(s.db, z.db, v) && SameMount(s, z, v)
    case FailsMount => LinkedAndStored(s, z, v) && SameMount(s, z, v)
    case FailsValidation =>
      && SameMount(s, z, v)
      && (if unlinkFails then v in z.db.volumes && (v in s.db.volumes ==> z.db.volumes[v] == s.db.volumes[v])
          else v !in z.db.volumes)
  }

  /** Nothing has happened to the volume yet. */
  lemma OutcomeFromHere(s: State, s': State, z: State, v: VolumeId, verdict: Verdict, unlinkFails: bool)
    requires SameMount(s, s', v) && Outcome(s', z, v, verdict, unlinkFails)
    requires SameVolume(s.db, s'.db, v) || (v !in s.db.volumes && verdict != FailsEarly)
    ensures Outcome(s, z, v, verdict, unlinkFails)
  {
  }

  /** The publish has its library and has not failed. */
  predicate Holding(pc: Pc, r: Request) {
    && pc.Publishing? && pc.r == r
    && ((pc.p.UnlockLibrary? && pc.p.ok) || (pc.p.UnlockVolume? && pc.p.result.Some?) || pc.p.Validate? || pc.p.Mount?)
  }

  /** The publish is on its way to its library and has not failed. */
  predicate Seeking(pc: Pc, r: Request) {
    && pc.Publishing? && pc.r == r
    && !pc.p.UnlockLibrary? && !pc.p.UnlockVolume? && !pc.p.Validate? && !pc.p.Mount?
  }

  lemma HoldingIsLinked(cfg: Config, s: State, t: ThreadId, r: Request)
    requires CallInv(cfg, s) && !cfg.deletion && t in s.threads && Holding(s.threads[t], r)
    ensures r.volume in s.db.volumes && s.db.volumes[r.volume].libraryId in s.store && r.volume != ""
    ensures s.threads[t].p.Validate? || s.threads[t].p.Mount? ==> Link(s.db, r.volume) == Some(s.threads[t].p.l)
  {
    assert Knows(cfg, s, s.threads[t]) && CallKnows(s, s.threads[t]);
  }

  lemma OwnHolding(cfg: Config, s: State, t: ThreadId, c: Choice, r: Request)
    requires CallInv(cfg, s) && !cfg.deletion && CanRun(cfg, s, t, c) && Holding(s.threads[t], r)
    ensures var s', v := ThreadStep(cfg, s, t, c), r.volume;
            var pc, pc' := s.threads[t], s'.threads[t];
            && SameVolume(s.db, s'.db, v)
            && (StepFails(pc, c) ==> pc.p.Validate? || pc.p.Mount?)
            && (if pc.p.Mount? then
                  && pc' == Finished
                  && (if c.fail then SameMount(s, s', v)
                      else v in s'.mounts && s'.mounts[v] == if v in s.mounts then s.mounts[v] else pc.p.l)
                else
                  && SameMount(s, s', v)
                  && (if StepFails(pc, c) then pc' == Removing(v, RemoveLock) else Holding(pc', r)))
  {
    HoldingIsLinked(cfg, s, t, r);
  }

  /** A publish that has its library. */
  lemma {:induction false} HoldingEnds(cfg: Config, s: State, run: seq<Label>, t: ThreadId, r: Request)
    requires CallInv(cfg, s) && cfg.orderly && !cfg.deletion
    requires IsRun(cfg, s, run) && FinishesAtEnd(cfg, s, run, t) && Holding(s.threads[t], r)
    ensures VerdictOf(cfg, s, run, t) != FailsEarly
    ensures Outcome(s, Exec(cfg, s, run), r.volume, VerdictOf(cfg, s, run, t), UnlinkFails(cfg, s, run, t))
    decreases |run|
  {
    var e, s', v := run[0], Next(cfg, s, run[0]), r.volume;
    var z := Exec(cfg, s', run[1..]);
    NextKeepsCalls(cfg, s, e);
    HoldingIsLinked(cfg, s, t, r);
    if !(e.Run? && e.t == t) {
      OthersLeave(cfg, s, e, t, v);
      HoldingEnds(cfg, s', run[1..], t, r);
      OutcomeFromHere(s, s', z, v, VerdictOf(cfg, s', run[1..], t), UnlinkFails(cfg, s', run[1..], t));
    } else {
      OwnHolding(cfg, s, t, e.choice, r);
      if s.threads[t].p.Mount? {
        assert run[1..] == [];
      } else if StepFails(s.threads[t], e.choice) {
        RemovalUnlinks(cfg, s', run[1..], t, v);
      } else {
        HoldingEnds(cfg, s', run[1..], t, r);
        OutcomeFromHere(s, s', z, v, VerdictOf(cfg, s', run[1..], t), UnlinkFails(cfg, s', run[1..], t));
      }
    }
  }

  lemma OwnSeeking(cfg: Config, s: State, t: ThreadId, c: Choice, r: Request)
    requires Inv(cfg, s) && CanRun(cfg, s, t, c) && Seeking(s.threads[t], r)
    ensures var s', v := ThreadStep(cfg, s, t, c), r.volume;
            && SameMount(s, s', v)
            && (SameVolume(s.db, s'.db, v) || (v !in s.db.volumes && Holding(s'.threads[t], r)))
            && (if StepFails(s.threads[t], c) then Ending(s'.threads[t], v) && SameVolume(s.db, s'.db, v)
                else Seeking(s'.threads[t], r) || Holding(s'.threads[t], r))
  {
    assert Knows(cfg, s, s.threads[t]);
  }

  /** A publish that is on its way to its library. */
  lemma {:induction false} SeekingEnds(cfg: Config, s: State, run: seq<Label>, t: ThreadId, r: Request)
    requires CallInv(cfg, s) && cfg.orderly && !cfg.deletion
    requires IsRun(cfg, s, run) && FinishesAtEnd(cfg, s, run, t) && Seeking(s.threads[t], r)
    ensures Outcome(s, Exec(cfg, s, run), r.volume, VerdictOf(cfg, s, run, t), UnlinkFails(cfg, s, run, t))
    decreases |run|
  {
    var e, s', v := run[0], Next(cfg, s, run[0]), r.volume;
    var z := Exec(cfg, s', run[1..]);
    NextKeepsCalls(cfg, s, e);
    if !(e.Run? && e.t == t) {
      OthersLeave(cfg, s, e, t, v);
      SeekingEnds(cfg, s', run[1..], t, r);
      OutcomeFromHere(s, s', z, v, VerdictOf(cfg, s', run[1..], t), UnlinkFails(cfg, s', run[1..], t));
    } else {
      OwnSeeking(cfg, s, t, e.choice, r);
      if StepFails(s.threads[t], e.choice) {
        EndingLeaves(cfg, s', run[1..], t, v);
      } else {
        if Seeking(s'.threads[t], r) {
          SeekingEnds(cfg, s', run[1..], t, r);
        } else {
          HoldingEnds(cfg, s', run[1..], t, r);
        }
        OutcomeFromHere(s, s', z, v, VerdictOf(cfg, s', run[1..], t), UnlinkFails(cfg, s', run[1..], t));
      }
    }
  }

  /** With orderly calls and no outside deletion, whatever runs beside it, a publish of a
      volume ends like this.
      - None of its steps fails: the volume is linked to a stored library, the one of
        before if there was one, and mounted, on that library unless it was mounted before.
      - The first failure comes before the validation: link and mount are as they were.
      - The validation fails: the volume is unlinked, unless the unlink fails as well.
      - The mount fails: the volume is linked and its library stored, for a retry. */
  lemma PublishOutcome(cfg: Config, s: State, run: seq<Label>, t: ThreadId, r: Request)
    requires CallInv(cfg, s) && cfg.orderly && !cfg.deletion
    requires IsRun(cfg, s, run) && FinishesAtEnd(cfg, s, run, t) && s.threads[t] == Publishing(r, LockVolume)
    ensures var z, v := Exec(cfg, s, run), r.volume;
            match VerdictOf(cfg, s, run, t)
            case Succeeds =>
              && LinkedAndStored(s, z, v) && v in z.mounts
              && z.mounts[v] == (if v in s.mounts then s.mounts[v] else z.db.volumes[v].libraryId)
            case FailsEarly => SameVolume(s.db, z.db, v) && SameMount(s, z, v)
            case FailsValidation => SameMount(s, z, v) && (UnlinkFails(cfg, s, run, t) || v !in z.db.volumes)
            case FailsMount => LinkedAndStored(s, z, v) && SameMount(s, z, v)
  {
    SeekingEnds(cfg, s, run, t, r);
  }

  // ---- Unpublish ----

  ghost predicate SomeStepFails(cfg: Config, s: State, run: seq<Label>, t: ThreadId)
    decreases |run|
  {
    run != [] && (OwnFails(s, run[0], t) || SomeStepFails(cfg, Next(cfg, s, run[0]), run[1..], t))
  }

  /** The call's own unmount reports success and leaves the mount. */
  ghost predicate UnmountIsSilent(cfg: Config, s: State, run: seq<Label>, t: ThreadId)
    decreases |run|
  {
    run != [] &&
      ((run[0].Run? && run[0].t == t && t in s.threads && s.threads[t].Removing? && s.threads[t].q.Unmount? &&
        run[0].choice.silent) ||
       UnmountIsSilent(cfg, Next(cfg, s, run[0]), run[1..], t))
  }

  predicate PastUnmount(pc: Pc, v: VolumeId) {
    (Ending(pc, v) && !pc.Publishing?) || pc == Removing(v, RemoveLock) || pc == Removing(v, Unlink)
  }

  lemma OwnPastUnmount(cfg: Config, s: State, t: ThreadId, c: Choice, v: VolumeId)
    requires t in s.threads && PastUnmount(s.threads[t], v)
    ensures PastUnmount(ThreadStep(cfg, s, t, c).threads[t], v)
    ensures StepFails(s.threads[t], c) ==> s.threads[t] == Removing(v, Unlink)
  {
  }

  /** Past its unmount, only the unlink of a call can fail, and it unmounts no more. */
  lemma {:induction false} OnlyUnlinkFails(cfg: Config, s: State, run: seq<Label>, t: ThreadId, v: VolumeId)
    requires CallInv(cfg, s) && cfg.orderly && IsRun(cfg, s, run) && FinishesAtEnd(cfg, s, run, t)
    requires PastUnmount(s.threads[t], v)
    ensures SomeStepFails(cfg, s, run, t) <==> UnlinkFails(cfg, s, run, t)
    ensures !UnmountIsSilent(cfg, s, run, t)
    decreases |run|
  {
    if run == [] {
    } else {
      NextKeepsCalls(cfg, s, run[0]);
      if run[0].Run? && run[0].t == t {
        OwnPastUnmount(cfg, s, t, run[0].choice, v);
      } else {
        OthersLeave(cfg, s, run[0], t, v);
      }
      OnlyUnlinkFails(cfg, Next(cfg, s, run[0]), run[1..], t, v);
    }
  }

  /** With orderly calls, whatever runs beside it, an unpublish ends like this: a volume
      that was not linked is left alone; a linked one keeps its link exactly when some
      step of the call failed, and otherwise has lost it, and its mount too, unless the
      unmount failed without saying so. */
  lemma {:induction false} UnpublishOutcome(cfg: Config, s: State, run: seq<Label>, t: ThreadId, v: VolumeId)
    requires CallInv(cfg, s) && cfg.orderly && IsRun(cfg, s, run) && FinishesAtEnd(cfg, s, run, t)
    requires s.threads[t] == Removing(v, HasVolume) || s.threads[t] == Removing(v, Unmount)
    ensures var z := Exec(cfg, s, run);
            && (s.threads[t].q.HasVolume? && Link(s.db, v) == None ==> SameVolume(s.db, z.db, v) && SameMount(s, z, v))
            && (v != "" && v in s.db.volumes ==>
                  if SomeStepFails(cfg, s, run, t) then SameVolume(s.db, z.db, v)
                  else v !in z.db.volumes && (v in z.mounts <==> v in s.mounts && UnmountIsSilent(cfg, s, run, t)))
    decreases |run|
  {
    var e, s' := run[0], Next(cfg, s, run[0]);
    NextKeepsCalls(cfg, s, e);
    if !(e.Run? && e.t == t) {
      OthersLeave(cfg, s, e, t, v);
      UnpublishOutcome(cfg, s', run[1..], t, v);
    } else if s'.threads[t] == Finished {
      assert run[1..] == [];
    } else if s.threads[t].q.HasVolume? {
      UnpublishOutcome(cfg, s', run[1..], t, v);
    } else {
      RemovalUnlinks(cfg, s', run[1..], t, v);
      OnlyUnlinkFails(cfg, s', run[1..], t, v);
    }
  }
}
