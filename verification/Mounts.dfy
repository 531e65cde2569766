/** Mounted implies linked implies stored, and exactly when it fails. */
module Mounts {
  import opened Options
  import opened Records
  import opened Protocol
  import opened Safety
  import opened Calls
  import S = Scheduler
  import Q = Sequential

  /** The volume is linked to the library, and the library is on disk. */
  ghost predicate Backed(s: State, v: VolumeId, l: LibraryId) {
    Link(s.db, v) == Some(l) && l in s.store
  }

  /** What is mounted at a volume's target is the stored library of that volume. */
  ghost predicate MountsBacked(s: State) {
    forall v | v in s.mounts :: Backed(s, v, s.mounts[v])
  }

  // ---- One step ----

  /** The step unlinks a volume whose target is still mounted. */
  ghost predicate UnlinksMounted(s: State, e: Label) {
    && e.Run? && e.t in s.threads && !e.choice.fail
    && s.threads[e.t].Removing? && s.threads[e.t].q.Unlink?
    && s.threads[e.t].v in s.mounts
  }

  /** Volumes other than the one that the step serves. */
  lemma OthersStayBacked(cfg: Config, s: State, t: ThreadId, c: Choice, v: VolumeId)
    requires Inv(cfg, s) && t in s.threads && Serves(s.threads[t]) != Some(v)
    requires v in s.mounts && Backed(s, v, s.mounts[v])
    ensures var s' := ThreadStep(cfg, s, t, c); v in s'.mounts && Backed(s', v, s'.mounts[v])
  {
    assert Knows(cfg, s, s.threads[t]);
    assert v in LinkedTo(s.db, s.mounts[v]);
    StepLeavesOthers(cfg, s, t, c, v);
  }

  /** A publish never breaks the mount of its own volume. */
  lemma PublishStaysBacked(cfg: Config, s: State, t: ThreadId, c: Choice)
    requires CallInv(cfg, s) && MountsBacked(s) && !cfg.deletion
    requires CanRun(cfg, s, t, c) && s.threads[t].Publishing?
    ensures var s', v := ThreadStep(cfg, s, t, c), s.threads[t].r.volume;
            v in s'.mounts ==> Backed(s', v, s'.mounts[v])
  {
    assert Knows(cfg, s, s.threads[t]) && CallKnows(s, s.threads[t]);
  }

  /** The volume that the step serves. */
  lemma OwnStaysBackedIff(cfg: Config, s: State, t: ThreadId, c: Choice, v: VolumeId)
    requires CallInv(cfg, s) && MountsBacked(s) && !cfg.deletion
    requires CanRun(cfg, s, t, c) && Serves(s.threads[t]) == Some(v)
    ensures var s' := ThreadStep(cfg, s, t, c);
            (v in s'.mounts ==> Backed(s', v, s'.mounts[v])) <==> !UnlinksMounted(s, Run(t, c))
  {
    if s.threads[t].Publishing? {
      PublishStaysBacked(cfg, s, t, c);
    } else {
      assert Knows(cfg, s, s.threads[t]);
      assert forall l | Link(s.db, v) == Some(l) :: v in LinkedTo(s.db, l);
    }
  }

  /** In every interleaving of orderly calls, the steps that break the guarantee are
      exactly the unlinks of volumes that are still mounted. */
  lemma StepKeepsMountsBackedIff(cfg: Config, s: State, e: Label)
    requires CallInv(cfg, s) && MountsBacked(s)
    requires cfg.orderly && !cfg.deletion && Enabled(cfg, s, e)
    ensures MountsBacked(Next(cfg, s, e)) <==> !UnlinksMounted(s, e)
  {
    var s' := Next(cfg, s, e);
    if e.Run? {
      forall v | v in s'.mounts && Serves(s.threads[e.t]) != Some(v) ensures Backed(s', v, s'.mounts[v]) {
        StepLeavesOthers(cfg, s, e.t, e.choice, v);
        OthersStayBacked(cfg, s, e.t, e.choice, v);
      }
      if Serves(s.threads[e.t]).Some? {
        OwnStaysBackedIff(cfg, s, e.t, e.choice, Serves(s.threads[e.t]).value);
      }
    } else {
      forall v | v in s'.mounts ensures Backed(s', v, s'.mounts[v]) {
        assert Backed(s, v, s.mounts[v]);
      }
    }
  }

  /** Unlinking breaks the guarantee exactly when the volume is still mounted, also
      with overlapping calls for one volume and with outside deletions. */
  lemma UnlinkKeepsMountsBackedIff(cfg: Config, s: State, t: ThreadId, c: Choice, v: VolumeId)
    requires Inv(cfg, s) && MountsBacked(s) && v in s.db.volumes
    requires t in s.threads && s.threads[t] == Removing(v, Unlink) && !c.fail
    ensures MountsBacked(ThreadStep(cfg, s, t, c)) <==> v !in s.mounts
  {
    var s' := ThreadStep(cfg, s, t, c);
    assert Knows(cfg, s, s.threads[t]);
    assert s'.mounts == s.mounts && v !in s'.db.volumes;
    if v in s.mounts {
      assert !Backed(s', v, s'.mounts[v]);
    } else {
      forall w | w in s'.mounts ensures Backed(s', w, s'.mounts[w]) {
        OthersStayBacked(cfg, s, t, c, w);
      }
    }
  }

  // ---- Whole runs ----

  ghost predicate AlwaysBacked(cfg: Config, s: State, run: seq<Label>)
    decreases |run|
  {
    MountsBacked(s) && (run != [] ==> AlwaysBacked(cfg, Next(cfg, s, run[0]), run[1..]))
  }

  ghost predicate NeverUnlinksMounted(cfg: Config, s: State, run: seq<Label>)
    decreases |run|
  {
    run != [] ==> !UnlinksMounted(s, run[0]) && NeverUnlinksMounted(cfg, Next(cfg, s, run[0]), run[1..])
  }

  /** Over whole runs, crashes included: every mount is backed in every state exactly
      when no step of the run unlinks a volume that is still mounted. */
  lemma {:induction false} MountsStayBackedIff(cfg: Config, s: State, run: seq<Label>)
    requires CallInv(cfg, s) && MountsBacked(s)
    requires cfg.orderly && !cfg.deletion && IsRun(cfg, s, run)
    ensures AlwaysBacked(cfg, s, run) <==> NeverUnlinksMounted(cfg, s, run)
    decreases |run|
  {
    if run == [] {
    } else {
      StepKeepsMountsBackedIff(cfg, s, run[0]);
      if !UnlinksMounted(s, run[0]) {
        NextKeepsCalls(cfg, s, run[0]);
        MountsStayBackedIff(cfg, Next(cfg, s, run[0]), run[1..]);
      }
    }
  }

  // ---- Where unmounts unmount and mounted volumes validate again ----

  /** No volume that is about to be unlinked is still mounted. */
  ghost predicate RemovesUnmounted(s: State) {
    forall t | t in s.threads && s.threads[t].Removing? ::
      s.threads[t].q.RemoveLock? || s.threads[t].q.Unlink? ==> s.threads[t].v !in s.mounts
  }

  ghost predicate MountInv(cfg: Config, s: State) {
    CallInv(cfg, s) && MountsBacked(s) && RemovesUnmounted(s)
  }

  /** The call comes to its unlink by an unmount, or by a validation that the mounted
      volumes pass. */
  lemma OwnRemovesUnmounted(cfg: Config, s: State, t: ThreadId, c: Choice)
    requires MountInv(cfg, s) && CanRun(cfg, s, t, c)
    requires cfg.unmounts && cfg.revalidates && !cfg.deletion
    ensures var s' := ThreadStep(cfg, s, t, c);
            var pc' := s'.threads[t];
            pc'.Removing? && (pc'.q.RemoveLock? || pc'.q.Unlink?) ==> pc'.v !in s'.mounts
  {
    assert CallKnows(s, s.threads[t]);
  }

  lemma RunRemovesUnmounted(cfg: Config, s: State, t: ThreadId, c: Choice)
    requires MountInv(cfg, s) && CanRun(cfg, s, t, c)
    requires cfg.unmounts && cfg.revalidates && !cfg.deletion
    ensures RemovesUnmounted(ThreadStep(cfg, s, t, c))
  {
    var s' := ThreadStep(cfg, s, t, c);
    forall u | u in s'.threads && s'.threads[u].Removing?
      ensures s'.threads[u].q.RemoveLock? || s'.threads[u].q.Unlink? ==> s'.threads[u].v !in s'.mounts
    {
      if u == t {
        OwnRemovesUnmounted(cfg, s, t, c);
      } else {
        StepLeavesOthers(cfg, s, t, c, s.threads[u].v);
      }
    }
  }

  lemma NextKeepsMountInv(cfg: Config, s: State, e: Label)
    requires MountInv(cfg, s) && Enabled(cfg, s, e)
    requires cfg.orderly && cfg.unmounts && cfg.revalidates && !cfg.deletion
    ensures MountInv(cfg, Next(cfg, s, e))
  {
    NextKeepsCalls(cfg, s, e);
    StepKeepsMountsBackedIff(cfg, s, e);
    if e.Run? {
      RunRemovesUnmounted(cfg, s, e.t, e.choice);
    }
  }

  lemma {:induction false} RunKeepsMounts(cfg: Config, s: State, run: seq<Label>)
    requires MountInv(cfg, s) && IsRun(cfg, s, run)
    requires cfg.orderly && cfg.unmounts && cfg.revalidates && !cfg.deletion
    ensures MountInv(cfg, Exec(cfg, s, run))
    decreases |run|
  {
    if run == [] {
    } else {
      NextKeepsMountInv(cfg, s, run[0]);
      RunKeepsMounts(cfg, Next(cfg, s, run[0]), run[1..]);
    }
  }

  /** In every interleaving across volumes, crashes included, where unmounts unmount
      and mounted volumes validate again, a mounted volume is linked to the library
      it mounts, and that library is on disk. */
  lemma MountedImpliesLinkedImpliesStored(cfg: Config, s: State, run: seq<Label>, v: VolumeId)
    requires Init(cfg, s) && MountsBacked(s) && IsRun(cfg, s, run)
    requires cfg.orderly && cfg.unmounts && cfg.revalidates && !cfg.deletion
    requires v in Exec(cfg, s, run).mounts
    ensures var z := Exec(cfg, s, run);
            && v in z.db.volumes && z.db.volumes[v].libraryId == z.mounts[v]
            && z.mounts[v] in z.store
  {
    assert MountInv(cfg, s);
    RunKeepsMounts(cfg, s, run);
  }

  // ---- Runs without those assumptions ----

  /** A driver at rest, with a volume mounted from a library that nothing else uses. */
  ghost predicate OneMount(s: State, v: VolumeId, l: LibraryId) {
    && s.threads == map[] && !s.closed && v != ""
    && v in s.mounts && s.mounts[v] == l
    && Backed(s, v, l) && LinkedTo(s.db, l) == {v}
  }

  ghost predicate Stranded(s: State, v: VolumeId, l: LibraryId) {
    && v in s.mounts && s.mounts[v] == l
    && v !in s.db.volumes && l !in s.store
  }

  /** A lone call that has come to `RemoveVolume` with the mount in place. */
  lemma RemovalStrands(cfg: Config, s: State, t: ThreadId, v: VolumeId, l: LibraryId) returns (run: seq<Label>)
    requires Inv(cfg, s) && Q.Alone(s, t) && !s.closed && cfg.immediate
    requires s.threads[t] == Removing(v, RemoveLock) && v != ""
    requires v in s.mounts && s.mounts[v] == l && Backed(s, v, l) && LinkedTo(s.db, l) == {v}
    ensures IsRun(cfg, s, run) && Stranded(Exec(cfg, s, run), v, l)
  {
    assert VolumeCount(s.db, l) == |LinkedTo(s.db, l)|;
    run := Q.RemoveAloneIsSequential(cfg, s, t, v, Q.World(None, None, 0, true));
  }

  /** One unpublish whose unmount fails and only logs it. */
  lemma SilentUnmountStrands(cfg: Config, s: State, v: VolumeId, l: LibraryId) returns (run: seq<Label>)
    requires Inv(cfg, s) && OneMount(s, v, l) && cfg.immediate && !cfg.unmounts
    ensures IsRun(cfg, s, run) && Stranded(Exec(cfg, s, run), v, l)
  {
    var start, has, unmount := Start(0, Unpublish(v)), Run(0, NOTHING_FAILS), Run(0, NOTHING_FAILS.(silent := true));
    var s1 := Next(cfg, s, start);
    var s2 := Next(cfg, s1, has);
    var s3 := Next(cfg, s2, unmount);
    NextKeepsInv(cfg, s, start);
    RunKeepsInv(cfg, s1, 0, NOTHING_FAILS);
    RunKeepsInv(cfg, s2, 0, unmount.choice);
    var rest := RemovalStrands(cfg, s3, 0, v, l);
    ConsRun(cfg, s2, unmount, rest);
    ConsRun(cfg, s1, has, [unmount] + rest);
    ConsRun(cfg, s, start, [has] + ([unmount] + rest));
    run := [start] + ([has] + ([unmount] + rest));
  }

  /** A repeated publish of the mounted volume, up to its validation. */
  lemma RepublishValidates(cfg: Config, s: State, r: Request, l: LibraryId) returns (run: seq<Label>)
    requires Inv(cfg, s) && OneMount(s, r.volume, l) && r.package != ""
    ensures IsRun(cfg, s, run)
    ensures var z := Exec(cfg, s, run);
            && Q.StillAlone(cfg, s, z, 0) && z.threads[0] == Publishing(r, Validate(l))
            && z.db == s.db && z.store == s.store
  {
    var start := Start(0, Publish(r));
    var s1 := Next(cfg, s, start);
    NextKeepsInv(cfg, s, start);
    var rest := Q.PublishAloneIsSequential(cfg, s1, 0, r, Q.World(None, None, 0, true));
    ConsRun(cfg, s, start, rest);
    run := [start] + rest;
  }

  /** One repeated publish whose validation fails: the rollback takes away a link
      that an earlier publish made, and the library that the volume has mounted. */
  lemma FailedValidationStrands(cfg: Config, s: State, r: Request, l: LibraryId) returns (run: seq<Label>)
    requires Inv(cfg, s) && OneMount(s, r.volume, l) && r.package != "" && cfg.immediate && !cfg.revalidates
    ensures IsRun(cfg, s, run) && Stranded(Exec(cfg, s, run), r.volume, l)
  {
    var first := RepublishValidates(cfg, s, r, l);
    var z := Exec(cfg, s, first);
    var fails := Run(0, NOTHING_FAILS.(fail := true));
    var z' := Next(cfg, z, fails);
    RunKeepsInv(cfg, z, 0, fails.choice);
    var rest := RemovalStrands(cfg, z', 0, r.volume, l);
    ConsRun(cfg, z, fails, rest);
    JoinRuns(cfg, s, first, [fails] + rest);
    run := first + ([fails] + rest);
  }

  /** A driver that boots with its one volume mounted. */
  const MOUNTED := State(ONE_LINK, map["a" := [0]], map["v" := "a"], map[], S.EMPTY, map[], false)

  /** Everything is as it should be, but an unmount may fail silently. */
  const UNMOUNTS_FAIL := Config(immediate := true, reliable := true, orderly := true,
                                unmounts := false, revalidates := true, deletion := false)

  /** Everything is as it should be, but a mounted volume may fail its validation. */
  const VALIDATIONS_FAIL := Config(immediate := true, reliable := true, orderly := true,
                                   unmounts := true, revalidates := false, deletion := false)

  /** Neither assumption on unmounts and validation can be dropped: with orderly
      calls and no outside deletion, either failure strands a mount. */
  lemma BothAssumptionsAreNeeded() returns (silent: seq<Label>, failed: seq<Label>)
    ensures forall cfg :: Init(cfg, MOUNTED)
    ensures MountsBacked(MOUNTED)
    ensures IsRun(UNMOUNTS_FAIL, MOUNTED, silent) && Stranded(Exec(UNMOUNTS_FAIL, MOUNTED, silent), "v", "a")
    ensures IsRun(VALIDATIONS_FAIL, MOUNTED, failed) && Stranded(Exec(VALIDATIONS_FAIL, MOUNTED, failed), "v", "a")
  {
    OneLinkIsConsistent();
    silent := SilentUnmountStrands(UNMOUNTS_FAIL, MOUNTED, "v", "a");
    failed := FailedValidationStrands(VALIDATIONS_FAIL, MOUNTED, Request("v", "p"), "a");
  }
}
