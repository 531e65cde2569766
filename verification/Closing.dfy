/** `LibraryManager.Stop` closes the database while calls are still served: what the
    store looks like once everything has returned after that. */
module Closing {
  import opened Options
  import opened Records
  import opened Protocol
  import opened Safety
  import opened Progress
  import opened Reclaim
  import S = Scheduler

  /** A cleanup that has seen the library unused and has still to remove the directory. */
  predicate AboutToRemove(pc: Pc, l: LibraryId) {
    pc.Cleaning? && pc.c.CleanStore? && pc.library == l
  }

  /** An orphan that no cleanup has come to remove yet. */
  ghost predicate Unsettled(s: State, l: LibraryId) {
    Orphan(s, l) && forall t | t in s.threads :: !AboutToRemove(s.threads[t], l)
  }

  /** The step is a download that stores a directory. */
  predicate StoresNew(s: State, e: Label) {
    && e.Run? && e.t in s.threads
    && s.threads[e.t].Publishing? && s.threads[e.t].p.Download?
    && !NoDownload(e.choice) && s.threads[e.t].p.l !in s.store
  }

  ghost predicate SomeStoresNew(cfg: Config, s: State, run: seq<Label>)
    decreases |run|
  {
    run != [] && (StoresNew(s, run[0]) || SomeStoresNew(cfg, Next(cfg, s, run[0]), run[1..]))
  }

  /** No transaction gets through any more. */
  lemma ClosedStaysClosed(cfg: Config, s: State, e: Label)
    requires s.closed && Enabled(cfg, s, e) && cfg.reliable
    ensures Next(cfg, s, e).closed && Next(cfg, s, e).db == s.db
  {
  }

  /** Behind a closed database a step settles nothing that was not about to be
      settled, and leaves nothing new behind but what a download stores. */
  lemma StepKeepsUnsettled(cfg: Config, s: State, t: ThreadId, c: Choice, l: LibraryId)
    requires Inv(cfg, s) && CanRun(cfg, s, t, c) && s.closed && cfg.reliable && !cfg.deletion
    requires !StoresNew(s, Run(t, c))
    ensures Unsettled(ThreadStep(cfg, s, t, c), l) <==> Unsettled(s, l)
  {
    var s' := ThreadStep(cfg, s, t, c);
    var pc, pc' := s.threads[t], PcAfter(cfg, s, s.threads[t], c);
    assert Knows(cfg, s, pc);
    assert s'.db == s.db;
    assert AboutToRemove(pc', l) ==> AboutToRemove(pc, l);
    forall u | u in s.threads && u != t ensures s'.threads[u] == s.threads[u] {
    }
    if AboutToRemove(pc, l) {
      assert l !in s'.store;
    } else {
      assert l in s'.store <==> l in s.store;
    }
  }

  lemma NextKeepsUnsettled(cfg: Config, s: State, e: Label, l: LibraryId)
    requires Inv(cfg, s) && Enabled(cfg, s, e) && s.closed && cfg.reliable && !cfg.deletion
    requires !StoresNew(s, e)
    ensures Unsettled(Next(cfg, s, e), l) <==> Unsettled(s, l)
  {
    var s' := Next(cfg, s, e);
    if e.Run? {
      StepKeepsUnsettled(cfg, s, e.t, e.choice, l);
    } else {
      forall t | t in s.threads ensures t in s'.threads && s'.threads[t] == s.threads[t] {
      }
    }
  }

  /** What a download stores behind a closed database nobody can ever link or clean up. */
  lemma DownloadIsUnsettled(cfg: Config, s: State, e: Label)
    requires Inv(cfg, s) && Enabled(cfg, s, e) && !cfg.deletion && StoresNew(s, e)
    ensures Unsettled(Next(cfg, s, e), s.threads[e.t].p.l)
  {
    var s', l := Next(cfg, s, e), s.threads[e.t].p.l;
    assert LinkedTo(s.db, l) == {};
    forall u | u in s'.threads ensures !AboutToRemove(s'.threads[u], l) {
      if u != e.t && AboutToRemove(s.threads[u], l) {
        assert LibraryKey(l) in Holds(s.threads[u]);
        MutualExclusion(s, u, e.t);
      }
    }
  }

  /** Behind a closed database, once every call has returned. */
  lemma {:induction false} ClosedEndsExactIff(cfg: Config, s: State, run: seq<Label>)
    requires Inv(cfg, s) && s.closed && cfg.reliable && !cfg.deletion
    requires IsRun(cfg, s, run) && Returned(Exec(cfg, s, run))
    ensures Exact(Exec(cfg, s, run)) <==> (forall l :: !Unsettled(s, l)) && !SomeStoresNew(cfg, s, run)
    decreases |run|
  {
    if run == [] {
      assert forall l :: Unsettled(s, l) <==> Orphan(s, l);
      ExactMeansNoOrphan(s);
    } else {
      var e, s' := run[0], Next(cfg, s, run[0]);
      NextKeepsInv(cfg, s, e);
      ClosedStaysClosed(cfg, s, e);
      ClosedEndsExactIff(cfg, s', run[1..]);
      if StoresNew(s, e) {
        DownloadIsUnsettled(cfg, s, e);
      } else {
        forall l ensures Unsettled(s', l) <==> Unsettled(s, l) {
          NextKeepsUnsettled(cfg, s, e, l);
        }
      }
    }
  }

  /** The run up to a stop that is about to close the database. */
  ghost predicate StopsAt(cfg: Config, s: State, run: seq<Label>, t: ThreadId, c: Choice) {
    && CleanBoot(cfg, s) && IsRun(cfg, s, run)
    && CanRun(cfg, Exec(cfg, s, run), t, c)
    && Exec(cfg, s, run).threads[t] == Stopping(StopClose)
    && !Exec(cfg, s, run).closed
  }

  ghost predicate OwedByAnother(s: State, t: ThreadId, l: LibraryId) {
    exists u :: u in s.threads && u != t && Owes(s.threads[u], l)
  }

  /** Whatever is unsettled when the database is closed, another call owes. */
  lemma UnsettledIsOwed(cfg: Config, s: State, run: seq<Label>, t: ThreadId, c: Choice, l: LibraryId)
    requires StopsAt(cfg, s, run, t, c) && cfg.reliable
    requires Unsettled(Exec(cfg, s, run), l)
    ensures OwedByAnother(Exec(cfg, s, run), t, l)
  {
    var z := Exec(cfg, s, run);
    NoCleanupIsLost(cfg, s, run, l);
    assert Knows(cfg, z, z.threads[t]);
    assert !Waiting(z, l);
    assert Owed(z, l);
    var u :| u in z.threads && Owes(z.threads[u], l);
    assert u != t && Owes(z.threads[u], l);
  }

  /** A publish between reading that its volume has no link and storing a library
      that no volume is linked to; before the digest is resolved it may be any. */
  ghost predicate CanStillStore(s: State, pc: Pc) {
    && pc.Publishing?
    && (pc.p.Resolve? ||
        ((pc.p.LockResolved? || pc.p.CheckStore? || pc.p.Download?) && pc.p.l != "" && LinkedTo(s.db, pc.p.l) == {}))
  }

  ghost predicate NobodyCanStore(s: State) {
    forall t | t in s.threads :: !CanStillStore(s, s.threads[t])
  }

  /** The close itself neither settles nor stores anything. */
  lemma CloseChangesNothing(cfg: Config, z: State, t: ThreadId, c: Choice)
    requires Inv(cfg, z) && CanRun(cfg, z, t, c) && z.threads[t] == Stopping(StopClose)
    ensures var z' := Next(cfg, z, Run(t, c));
            && z'.closed && Inv(cfg, z')
            && (forall l :: Unsettled(z', l) <==> Unsettled(z, l))
            && (NobodyCanStore(z') <==> NobodyCanStore(z))
  {
    var z' := Next(cfg, z, Run(t, c));
    RunKeepsInv(cfg, z, t, c);
    forall u | u in z.threads && u != t ensures z'.threads[u] == z.threads[u] {
    }
  }

  /** A stop closes the database and the remaining calls return.  Then the store is
      exact if and only if no library was unsettled at the close, and no publish
      under way stored another one after it. */
  lemma StopEndsExactIff(cfg: Config, s: State, run: seq<Label>, t: ThreadId, c: Choice, rest: seq<Label>)
    requires StopsAt(cfg, s, run, t, c) && cfg.reliable && !cfg.deletion
    requires var z' := Next(cfg, Exec(cfg, s, run), Run(t, c)); IsRun(cfg, z', rest) && Returned(Exec(cfg, z', rest))
    ensures var z := Exec(cfg, s, run);
            var z' := Next(cfg, z, Run(t, c));
            Exact(Exec(cfg, z', rest)) <==> (forall l :: !Unsettled(z, l)) && !SomeStoresNew(cfg, z', rest)
  {
    var z := Exec(cfg, s, run);
    var z' := Next(cfg, z, Run(t, c));
    ReachableInv(cfg, s, run);
    CloseChangesNothing(cfg, z, t, c);
    ClosedEndsExactIff(cfg, z', rest);
  }

  // ---- What the state at the close says about every continuation ----

  lemma LinkedLibraryIsThere(s: State, l: LibraryId)
    requires LinkedIsStored(s) && LinkedTo(s.db, l) != {}
    ensures l in s.store
  {
    var v :| v in LinkedTo(s.db, l);
  }

  lemma NobodyComesToStore(cfg: Config, s: State, e: Label)
    requires Inv(cfg, s) && s.closed && cfg.reliable && !cfg.deletion && Enabled(cfg, s, e)
    requires NobodyCanStore(s)
    ensures !StoresNew(s, e) && NobodyCanStore(Next(cfg, s, e))
  {
    ClosedStaysClosed(cfg, s, e);
    if e.Run? && s.threads[e.t].Publishing? {
      var p := s.threads[e.t].p;
      assert Knows(cfg, s, s.threads[e.t]) && !CanStillStore(s, s.threads[e.t]);
      if (p.CheckStore? || p.Download?) && LinkedTo(s.db, p.l) != {} {
        LinkedLibraryIsThere(s, p.l);
      }
    }
  }

  lemma {:induction false} NobodyStores(cfg: Config, s: State, run: seq<Label>)
    requires Inv(cfg, s) && s.closed && cfg.reliable && !cfg.deletion && IsRun(cfg, s, run)
    requires NobodyCanStore(s)
    ensures !SomeStoresNew(cfg, s, run)
    decreases |run|
  {
    if run == [] {
    } else {
      NextKeepsInv(cfg, s, run[0]);
      ClosedStaysClosed(cfg, s, run[0]);
      NobodyComesToStore(cfg, s, run[0]);
      NobodyStores(cfg, Next(cfg, s, run[0]), run[1..]);
    }
  }

  lemma {:induction false} Longer(ls: set<LibraryId>) returns (n: nat)
    ensures forall l | l in ls :: |l| < n
    decreases ls
  {
    if ls == {} {
      n := 0;
    } else {
      var l :| l in ls;
      var m := Longer(ls - {l});
      n := if |l| < m then m else |l| + 1;
      assert forall k | k in ls :: k == l || k in ls - {l};
    }
  }

  lemma FreshLibrary(ls: set<LibraryId>) returns (l: LibraryId)
    ensures l != "" && l !in ls
  {
    var n := Longer(ls);
    l := seq(n + 1, _ => 'a');
    assert |l| == n + 1;
  }

  /** Who holds the lock of a library that this publish waits for. */
  lemma HolderCanStep(cfg: Config, s: State, l: LibraryId) returns (w: ThreadId)
    requires LocksMatch(s) && LibraryKey(l) in s.locks && LinkedTo(s.db, l) == {} && l != ""
    ensures w in s.threads && Wants(s.threads[w]).None?
    ensures CanRun(cfg, s, w, SomeChoice(s, s.threads[w]))
    ensures CanStillStore(s, s.threads[w]) || !StoresNew(s, Run(w, SomeChoice(s, s.threads[w])))
  {
    w := s.locks[LibraryKey(l)];
    assert LibraryKey(l) in Held(s.threads)[w];
    if Wants(s.threads[w]).Some? {
      LockOrder(s.threads[w], LibraryKey(l));
    }
  }

  /** The publish's own next step, with a digest that nobody has stored and a download
      that succeeds. */
  lemma StoringStep(cfg: Config, s: State, t: ThreadId) returns (e: Label)
    requires Inv(cfg, s) && s.closed && cfg.reliable && !cfg.deletion && (forall l :: !Unsettled(s, l))
    requires t in s.threads && CanStillStore(s, s.threads[t])
    requires Wants(s.threads[t]).Some? ==> Wants(s.threads[t]).value !in s.locks
    ensures e.Run? && e.t == t && Enabled(cfg, s, e)
    ensures StoresNew(s, e) || CanStillStore(Next(cfg, s, e), Next(cfg, s, e).threads[t])
  {
    var pc := s.threads[t];
    var l := FreshLibrary(s.store.Keys);
    e := Run(t, Choice(false, false, l, [0], 0, 0));
    assert Knows(cfg, s, pc);
    ClosedStaysClosed(cfg, s, e);
    if pc.p.Resolve? && LinkedTo(s.db, l) != {} {
      LinkedLibraryIsThere(s, l);
    } else if pc.p.CheckStore? && pc.p.l in s.store {
      assert !Unsettled(s, pc.p.l);
      var w :| w in s.threads && AboutToRemove(s.threads[w], pc.p.l);
      assert LibraryKey(pc.p.l) in Holds(s.threads[w]);
      MutualExclusion(s, w, t);
    }
  }

  /** A publish that can still store a library does so in some continuation: whoever
      holds that library's lock gives it back first. */
  lemma {:induction false} StoringRun(cfg: Config, s: State, t: ThreadId) returns (run: seq<Label>)
    requires Inv(cfg, s) && s.closed && cfg.reliable && !cfg.deletion && (forall l :: !Unsettled(s, l))
    requires t in s.threads && CanStillStore(s, s.threads[t])
    ensures IsRun(cfg, s, run) && SomeStoresNew(cfg, s, run)
    decreases Measure(s), if Wants(s.threads[t]).Some? then 1 else 0
  {
    var pc := s.threads[t];
    var e;
    if Wants(pc).Some? && Wants(pc).value in s.locks {
      var w := HolderCanStep(cfg, s, pc.p.l);
      e := Run(w, SomeChoice(s, s.threads[w]));
      if CanStillStore(s, s.threads[w]) {
        run := StoringRun(cfg, s, w);
        return;
      }
      assert w != t;
    } else {
      e := StoringStep(cfg, s, t);
    }
    if StoresNew(s, e) {
      run := [e];
      assert IsRun(cfg, Next(cfg, s, e), run[1..]);
    } else {
      NextKeepsInv(cfg, s, e);
      ClosedStaysClosed(cfg, s, e);
      forall l ensures !Unsettled(Next(cfg, s, e), l) {
        NextKeepsUnsettled(cfg, s, e, l);
      }
      RunDecreases(cfg, s, e.t, e.choice);
      var rest := StoringRun(cfg, Next(cfg, s, e), t);
      run := [e] + rest;
      assert run[1..] == rest;
    }
  }

  lemma {:induction false} StoresInLongerRun(cfg: Config, s: State, run: seq<Label>, more: seq<Label>)
    requires SomeStoresNew(cfg, s, run)
    ensures SomeStoresNew(cfg, s, run + more)
    decreases |run|
  {
    assert (run + more)[0] == run[0] && (run + more)[1..] == run[1..] + more;
    if StoresNew(s, run[0]) {
    } else {
      StoresInLongerRun(cfg, Next(cfg, s, run[0]), run[1..], more);
    }
  }

  ghost predicate EndsExact(cfg: Config, s: State, rest: seq<Label>) {
    IsRun(cfg, s, rest) && Returned(Exec(cfg, s, rest)) ==> Exact(Exec(cfg, s, rest))
  }

  /** What is unsettled, or can still be stored, stays for good in some continuation. */
  lemma SomeEndIsInexact(cfg: Config, s: State) returns (rest: seq<Label>)
    requires Inv(cfg, s) && s.closed && cfg.reliable && !cfg.deletion
    requires (exists l :: Unsettled(s, l)) || !NobodyCanStore(s)
    ensures !EndsExact(cfg, s, rest)
  {
    var first := [];
    if forall l :: !Unsettled(s, l) {
      var t :| t in s.threads && CanStillStore(s, s.threads[t]);
      first := StoringRun(cfg, s, t);
    }
    RunKeepsAll(cfg, s, first);
    var last := Drains(cfg, Exec(cfg, s, first));
    JoinRuns(cfg, s, first, last);
    rest := first + last;
    if forall l :: !Unsettled(s, l) {
      StoresInLongerRun(cfg, s, first, last);
    }
    ClosedEndsExactIff(cfg, s, rest);
  }

  /** A stop leaves an exact store in every continuation exactly when, at the close,
      every orphan was about to be removed and no publish could still store one.
      Any other orphan is the debt of another call, which fails to settle it. */
  lemma StopAlwaysEndsExactIff(cfg: Config, s: State, run: seq<Label>, t: ThreadId, c: Choice)
    requires StopsAt(cfg, s, run, t, c) && cfg.reliable && !cfg.deletion
    ensures var z := Exec(cfg, s, run);
            && ((forall rest :: EndsExact(cfg, Next(cfg, z, Run(t, c)), rest)) <==>
                  (forall l :: !Unsettled(z, l)) && NobodyCanStore(z))
            && (forall l | Unsettled(z, l) :: OwedByAnother(z, t, l))
  {
    var z := Exec(cfg, s, run);
    var z' := Next(cfg, z, Run(t, c));
    ReachableInv(cfg, s, run);
    CloseChangesNothing(cfg, z, t, c);
    if (forall l :: !Unsettled(z, l)) && NobodyCanStore(z) {
      forall rest ensures EndsExact(cfg, z', rest) {
        if IsRun(cfg, z', rest) && Returned(Exec(cfg, z', rest)) {
          NobodyStores(cfg, z', rest);
          ClosedEndsExactIff(cfg, z', rest);
        }
      }
    } else {
      var rest := SomeEndIsInexact(cfg, z');
    }
    forall l | Unsettled(z, l) ensures OwedByAnother(z, t, l) {
      UnsettledIsOwed(cfg, s, run, t, c, l);
    }
  }

  // ---- A run that leaves an orphan for good ----

  lemma TwoSteps(cfg: Config, s: State, a: Label, b: Label) returns (run: seq<Label>)
    requires Enabled(cfg, s, a) && Enabled(cfg, Next(cfg, s, a), b)
    ensures IsRun(cfg, s, run) && Exec(cfg, s, run) == Next(cfg, Next(cfg, s, a), b)
  {
    ConsRun(cfg, Next(cfg, s, a), b, []);
    ConsRun(cfg, s, a, [b]);
    run := [a] + [b];
  }

  /** A lone unpublish under the delayed strategy, up to its unmount. */
  lemma UnpublishStarts(cfg: Config, s: State, v: VolumeId) returns (run: seq<Label>)
    requires s.threads == map[] && !s.closed && v != "" && Link(s.db, v).UnwrapOr("") != ""
    ensures IsRun(cfg, s, run)
    ensures Exec(cfg, s, run) == s.(threads := map[0 := Removing(v, Unmount)])
  {
    run := TwoSteps(cfg, s, Start(0, Unpublish(v)), Run(0, NOTHING_FAILS));
  }

  /** The unmount, and the lock of `RemoveVolume`. */
  lemma UnpublishUnmounts(cfg: Config, s: State, v: VolumeId) returns (run: seq<Label>)
    requires s.threads == map[0 := Removing(v, Unmount)] && s.locks == map[]
    ensures IsRun(cfg, s, run)
    ensures Exec(cfg, s, run) ==
            s.(mounts := s.mounts - {v}, locks := map[VolumeKey(v) := 0], threads := map[0 := Removing(v, Unlink)])
  {
    run := TwoSteps(cfg, s, Run(0, NOTHING_FAILS), Run(0, NOTHING_FAILS));
  }

  lemma UnlinkComesToSchedule(cfg: Config, s: State, v: VolumeId, l: LibraryId) returns (run: seq<Label>)
    requires s.threads == map[0 := Removing(v, Unlink)] && !s.closed && !cfg.immediate
    requires v != "" && l != "" && Link(s.db, v) == Some(l)
    ensures IsRun(cfg, s, run)
    ensures Exec(cfg, s, run) ==
            s.(threads := map[0 := Removing(v, ScheduleLock(l))], db := UnlinkVolume(s.db, v).value.db)
  {
    ConsRun(cfg, s, Run(0, NOTHING_FAILS), []);
    run := [Run(0, NOTHING_FAILS)];
  }

  /** A lone unpublish under the delayed strategy, up to the lock of the scheduler. */
  lemma UnpublishUnlinks(cfg: Config, s: State, v: VolumeId, l: LibraryId) returns (run: seq<Label>)
    requires s.threads == map[] && s.locks == map[] && !s.closed && !cfg.immediate
    requires v != "" && l != "" && Link(s.db, v) == Some(l)
    ensures IsRun(cfg, s, run)
    ensures var z := Exec(cfg, s, run);
            && z.threads == map[0 := Removing(v, ScheduleLock(l))] && z.locks == map[VolumeKey(v) := 0]
            && z.db == UnlinkVolume(s.db, v).value.db && z.store == s.store && z.queue == s.queue && !z.closed
  {
    var first := UnpublishStarts(cfg, s, v);
    var second := UnpublishUnmounts(cfg, Exec(cfg, s, first), v);
    JoinRuns(cfg, s, first, second);
    var third := UnlinkComesToSchedule(cfg, Exec(cfg, s, first + second), v, l);
    JoinRuns(cfg, s, first + second, third);
    run := first + second + third;
  }

  /** A stop up to its lock. */
  lemma StopStarts(cfg: Config, s: State, t: ThreadId) returns (run: seq<Label>)
    requires t !in s.threads && SchedulerMutex !in s.locks && !cfg.immediate
    ensures IsRun(cfg, s, run)
    ensures Exec(cfg, s, run) ==
            s.(threads := s.threads[t := Stopping(StopBegin)], locks := s.locks[SchedulerMutex := t])
  {
    run := TwoSteps(cfg, s, Start(t, Stop), Run(t, NOTHING_FAILS));
  }

  /** The loop of a stop with nothing pending. */
  lemma StopLoops(cfg: Config, s: State, t: ThreadId) returns (run: seq<Label>)
    requires t in s.threads && s.threads[t] == Stopping(StopBegin)
    requires s.queue.pending == map[] && !s.queue.stopped
    ensures IsRun(cfg, s, run)
    ensures Exec(cfg, s, run) == s.(threads := s.threads[t := Stopping(StopUnlock)], queue := S.Halt(s.queue))
  {
    run := TwoSteps(cfg, s, Run(t, NOTHING_FAILS), Run(t, NOTHING_FAILS));
  }

  lemma StopUnlocks(cfg: Config, s: State, t: ThreadId) returns (run: seq<Label>)
    requires t in s.threads && s.threads[t] == Stopping(StopUnlock)
    ensures IsRun(cfg, s, run)
    ensures Exec(cfg, s, run) == s.(threads := s.threads[t := Stopping(StopClose)], locks := s.locks - {SchedulerMutex})
  {
    ConsRun(cfg, s, Run(t, NOTHING_FAILS), []);
    run := [Run(t, NOTHING_FAILS)];
  }

  /** A stop with nothing pending, up to the close. */
  lemma StopComesToClose(cfg: Config, s: State, t: ThreadId) returns (run: seq<Label>)
    requires t !in s.threads && SchedulerMutex !in s.locks && !cfg.immediate
    requires s.queue.pending == map[] && !s.queue.stopped && !s.closed
    ensures IsRun(cfg, s, run)
    ensures var z := Exec(cfg, s, run);
            && z.threads == s.threads[t := Stopping(StopClose)]
            && z.db == s.db && z.store == s.store && !z.closed
  {
    var first := StopStarts(cfg, s, t);
    var second := StopLoops(cfg, Exec(cfg, s, first), t);
    JoinRuns(cfg, s, first, second);
    var third := StopUnlocks(cfg, Exec(cfg, s, first + second), t);
    JoinRuns(cfg, s, first + second, third);
    run := first + second + third;
  }

  /** A driver that boots with its one library stored. */
  const STORED := State(ONE_LINK, map["a" := [0]], map[], map[], S.EMPTY, map[], false)

  lemma StoredIsCleanBoot(cfg: Config)
    ensures CleanBoot(cfg, STORED)
  {
    OneLinkIsConsistent();
    assert "a" in LinkedLibraries(ONE_LINK);
  }

  /** A stop closes the database between the unlink and the schedule of an unpublish
      that is still being served: the cleanup it then runs cannot read the counter,
      and the library stays for good, in a run where nothing else goes wrong. */
  lemma CloseOrphansALibrary()
    returns (cfg: Config, s: State, run: seq<Label>, t: ThreadId, c: Choice, rest: seq<Label>)
    ensures StopsAt(cfg, s, run, t, c)
    ensures cfg.reliable && cfg.orderly && cfg.unmounts && cfg.revalidates && !cfg.deletion
    ensures var z' := Next(cfg, Exec(cfg, s, run), Run(t, c));
            IsRun(cfg, z', rest) && Returned(Exec(cfg, z', rest)) && !Exact(Exec(cfg, z', rest))
  {
    cfg := Config(immediate := false, reliable := true, orderly := true,
                  unmounts := true, revalidates := true, deletion := false);
    s, t, c := STORED, 1, NOTHING_FAILS;
    StoredIsCleanBoot(cfg);
    var unpublish := UnpublishUnlinks(cfg, s, "v", "a");
    var s1 := Exec(cfg, s, unpublish);
    OneLinkIsConsistent();
    UnlinkVolumeKeeps(s.db, "v");
    var stop := StopComesToClose(cfg, s1, t);
    JoinRuns(cfg, s, unpublish, stop);
    run := unpublish + stop;
    var z := Exec(cfg, s, run);
    assert z == Exec(cfg, s1, stop);
    assert Unsettled(z, "a");
    ReachableInv(cfg, s, run);
    CloseChangesNothing(cfg, z, t, c);
    rest := SomeEndIsInexact(cfg, Next(cfg, z, Run(t, c)));
  }
}
