/** No cleanup is lost while the database is open: whatever is stored and not linked
    is somebody's job to remove. */
module Reclaim {
  import opened Options
  import opened Records
  import opened Protocol
  import opened Safety
  import opened Progress
  import S = Scheduler

  /** The thread has still to act on the library: a publish that holds its lock and
      is about to link it, an unpublish about to schedule its cleanup, a cleanup
      that has not yet removed the directory, or a stop with the library on its list. */
  predicate Owes(pc: Pc, l: LibraryId) {
    match pc
    case Finished => false
    case Publishing(_, p) => (p.Record? && p.l == l) || (p.LinkUp? && p.l == l)
    case Removing(_, q) => (q.ScheduleLock? && q.l == l) || (q.ScheduleEntry? && q.l == l)
    case Cleaning(m, c, k) =>
      || (m == l && (c.CleanLock? || c.CleanRead? || c.CleanStore?))
      || (k.ToStop? && l in k.rest)
    case Firing(m, f) => m == l && f == TimerUnlock(true)
    case Stopping(h) => h.StopLoop? && l in h.todo
  }

  ghost predicate Waiting(s: State, l: LibraryId) {
    l in s.queue.pending && !s.queue.stopped
  }

  ghost predicate Owed(s: State, l: LibraryId) {
    Waiting(s, l) || exists t :: t in s.threads && Owes(s.threads[t], l)
  }

  /** Stored, and linked to by no volume. */
  ghost predicate Orphan(s: State, l: LibraryId) {
    l in s.store && LinkedTo(s.db, l) == {}
  }

  ghost predicate NothingForgotten(s: State) {
    forall l | Orphan(s, l) :: l != "" && Owed(s, l)
  }

  /** The owing thread passes the debt on, settles it by removing the directory,
      or cancels it by linking the library. */
  lemma DebtMoves(cfg: Config, s: State, t: ThreadId, c: Choice, l: LibraryId)
    requires CanRun(cfg, s, t, c) && cfg.reliable && !s.closed
    requires Consistent(s.db) && Knows(cfg, s, s.threads[t])
    requires Orphan(s, l) && l != "" && Owes(s.threads[t], l)
    ensures var s' := ThreadStep(cfg, s, t, c);
            Orphan(s', l) ==> Owes(PcAfter(cfg, s, s.threads[t], c), l) || Waiting(s', l)
  {
    var pc := s.threads[t];
    assert VolumeCount(s.db, l) == |LinkedTo(s.db, l)|;
    if pc.Publishing? && pc.p.LinkUp? {
      LinkVolumeKeeps(s.db, l, pc.r.volume, pc.p.fromCache, c.now);
    }
  }

  /** A pending entry stays, or passes to the thread that takes it. */
  lemma EntryMoves(cfg: Config, s: State, t: ThreadId, c: Choice, l: LibraryId)
    requires t in s.threads && Knows(cfg, s, s.threads[t]) && Waiting(s, l)
    ensures Waiting(ThreadStep(cfg, s, t, c), l) || Owes(PcAfter(cfg, s, s.threads[t], c), l)
  {
  }

  /** A library that a step stores or unlinks is owed by the same thread. */
  lemma DebtArises(cfg: Config, s: State, t: ThreadId, c: Choice, l: LibraryId)
    requires t in s.threads && Consistent(s.db) && Knows(cfg, s, s.threads[t])
    requires !Orphan(s, l) && Orphan(ThreadStep(cfg, s, t, c), l)
    ensures l != "" && Owes(PcAfter(cfg, s, s.threads[t], c), l)
  {
    var s' := ThreadStep(cfg, s, t, c);
    assert forall v | Link(s.db, v) == Some(l) :: v in LinkedTo(s.db, l);
    if l in s.store {
      var v :| v in LinkedTo(s.db, l);
      assert v !in LinkedTo(s'.db, l);
    }
  }

  lemma RunForgetsNothing(cfg: Config, s: State, t: ThreadId, c: Choice)
    requires Inv(cfg, s) && CanRun(cfg, s, t, c) && cfg.reliable && !s.closed
    requires NothingForgotten(s)
    ensures NothingForgotten(ThreadStep(cfg, s, t, c))
  {
    var s' := ThreadStep(cfg, s, t, c);
    forall l | Orphan(s', l) ensures l != "" && Owed(s', l) {
      assert s'.threads[t] == PcAfter(cfg, s, s.threads[t], c);
      if !Orphan(s, l) {
        DebtArises(cfg, s, t, c, l);
      } else if Waiting(s, l) {
        EntryMoves(cfg, s, t, c, l);
      } else {
        var u :| u in s.threads && Owes(s.threads[u], l);
        if u == t {
          DebtMoves(cfg, s, t, c, l);
        } else {
          assert s'.threads[u] == s.threads[u];
        }
      }
    }
  }

  // ---- Timers ----

  predicate Calling(pc: Pc, l: LibraryId) {
    pc.Firing? && pc.library == l && !pc.f.TimerUnlock?
  }

  /** The entry's own timer is running, or a callback for the library is on its way. */
  ghost predicate WillFire(s: State, l: LibraryId) {
    || (l in s.queue.pending && s.queue.pending[l] in s.queue.armed)
    || exists t :: t in s.threads && Calling(s.threads[t], l)
  }

  /** No pending entry is stranded while the strategy runs. */
  ghost predicate TimersRun(s: State) {
    && S.Valid(s.queue)
    && (!s.queue.stopped ==> forall l | l in s.queue.pending :: WillFire(s, l))
  }

  lemma QueueStaysValid(cfg: Config, s: State, t: ThreadId, c: Choice)
    requires t in s.threads && S.Valid(s.queue)
    ensures S.Valid(QueueAfter(s.queue, s.threads[t], c))
  {
  }

  lemma TimerStays(cfg: Config, s: State, t: ThreadId, c: Choice, l: LibraryId)
    requires Inv(cfg, s) && CanRun(cfg, s, t, c) && S.Valid(s.queue)
    requires l in s.queue.pending && WillFire(s, l)
    requires var s' := ThreadStep(cfg, s, t, c); l in s'.queue.pending && !s'.queue.stopped
    ensures WillFire(ThreadStep(cfg, s, t, c), l)
  {
    var s' := ThreadStep(cfg, s, t, c);
    assert Knows(cfg, s, s.threads[t]);
    if u :| u in s.threads && Calling(s.threads[u], l) {
      assert s'.threads[u] == if u == t then PcAfter(cfg, s, s.threads[t], c) else s.threads[u];
    }
  }

  lemma RunKeepsTimers(cfg: Config, s: State, t: ThreadId, c: Choice)
    requires Inv(cfg, s) && CanRun(cfg, s, t, c) && TimersRun(s)
    ensures TimersRun(ThreadStep(cfg, s, t, c))
  {
    var s' := ThreadStep(cfg, s, t, c);
    QueueStaysValid(cfg, s, t, c);
    if !s'.queue.stopped {
      forall l | l in s'.queue.pending ensures WillFire(s', l) {
        if l in s.queue.pending && WillFire(s, l) {
          TimerStays(cfg, s, t, c, l);
        }
      }
    }
  }

  // ---- Over whole runs ----

  ghost predicate Account(cfg: Config, s: State) {
    && Inv(cfg, s) && TimersRun(s)
    && (!s.closed ==> NothingForgotten(s))
    && (cfg.immediate ==> s.queue.pending == map[])
  }

  lemma ImmediateNeverQueues(cfg: Config, s: State, t: ThreadId, c: Choice)
    requires t in s.threads && Knows(cfg, s, s.threads[t]) && cfg.immediate && s.queue.pending == map[]
    ensures QueueAfter(s.queue, s.threads[t], c).pending == map[]
  {
  }

  /** A step that leaves the queue's entries, the database and other threads alone. */
  lemma SpawnKeepsAccount(cfg: Config, s: State, e: Label)
    requires Account(cfg, s) && Enabled(cfg, s, e)
    requires e.Start? || e.FireTimer?
    ensures Account(cfg, Next(cfg, s, e))
  {
    var s' := Next(cfg, s, e);
    NextKeepsInv(cfg, s, e);
    forall u | u in s.threads ensures u in s'.threads && s'.threads[u] == s.threads[u] {
    }
    forall l | Orphan(s', l) && !s.closed ensures l != "" && Owed(s', l) {
      assert Orphan(s, l);
    }
    forall l | l in s'.queue.pending && !s'.queue.stopped ensures WillFire(s', l) {
      assert WillFire(s, l);
      if e.FireTimer? && s.queue.pending[l] == e.i {
        assert Calling(s'.threads[e.t], l);
      }
    }
  }

  lemma NextKeepsAccount(cfg: Config, s: State, e: Label)
    requires Account(cfg, s) && Enabled(cfg, s, e) && cfg.reliable
    ensures Account(cfg, Next(cfg, s, e))
  {
    NextKeepsInv(cfg, s, e);
    match e
    case Run(t, c) =>
      if !s.closed {
        RunForgetsNothing(cfg, s, t, c);
      }
      RunKeepsTimers(cfg, s, t, c);
      if cfg.immediate {
        ImmediateNeverQueues(cfg, s, t, c);
      }
    case Start(_, _) => SpawnKeepsAccount(cfg, s, e);
    case FireTimer(_, _) => SpawnKeepsAccount(cfg, s, e);
    case Vanish(l) =>
      var s' := Next(cfg, s, e);
      forall m | Orphan(s', m) && !s.closed ensures m != "" && Owed(s', m) {
        assert Orphan(s, m) && s'.queue == s.queue;
      }
      forall m | m in s'.queue.pending && !s'.queue.stopped ensures WillFire(s', m) {
        assert WillFire(s, m);
      }
  }

  lemma {:induction false} RunKeepsAccount(cfg: Config, s: State, run: seq<Label>)
    requires Account(cfg, s) && IsRun(cfg, s, run) && cfg.reliable
    ensures Account(cfg, Exec(cfg, s, run))
    decreases |run|
  {
    if run == [] {
    } else {
      NextKeepsAccount(cfg, s, run[0]);
      RunKeepsAccount(cfg, Next(cfg, s, run[0]), run[1..]);
    }
  }

  /** The libraries that some volume is linked to. */
  function LinkedLibraries(db: Db): set<LibraryId> {
    set v | v in db.volumes :: db.volumes[v].libraryId
  }

  /** A driver that boots on a store without libraries that nothing links to. */
  ghost predicate CleanBoot(cfg: Config, s: State) {
    Init(cfg, s) && s.store.Keys <= LinkedLibraries(s.db)
  }

  /** In every state of a reliable run with the database open, a stored library that
      no volume links to is on its way out: it is pending, or some thread has still
      to act on it. */
  lemma NoCleanupIsLost(cfg: Config, s: State, run: seq<Label>, l: LibraryId)
    requires CleanBoot(cfg, s) && IsRun(cfg, s, run) && cfg.reliable
    ensures Account(cfg, Exec(cfg, s, run))
    ensures !Exec(cfg, s, run).closed && Orphan(Exec(cfg, s, run), l) ==> Owed(Exec(cfg, s, run), l)
  {
    forall m | m in s.store ensures LinkedTo(s.db, m) != {} {
      var v :| v in s.db.volumes && s.db.volumes[v].libraryId == m;
      assert v in LinkedTo(s.db, m);
    }
    RunKeepsAccount(cfg, s, run);
  }

  predicate Exact(s: State) {
    s.store.Keys == LinkedLibraries(s.db)
  }

  /** With the linked libraries stored, exact means free of orphans. */
  lemma ExactMeansNoOrphan(s: State)
    requires LinkedIsStored(s)
    ensures Exact(s) <==> forall l :: !Orphan(s, l)
  {
    forall l ensures l in LinkedLibraries(s.db) <==> LinkedTo(s.db, l) != {} {
      if v :| v in LinkedTo(s.db, l) {
        assert l in LinkedLibraries(s.db);
      }
      if l in LinkedLibraries(s.db) {
        var v :| v in s.db.volumes && s.db.volumes[v].libraryId == l;
        assert v in LinkedTo(s.db, l);
      }
    }
    if l :| Orphan(s, l) {
      assert l in s.store.Keys && l !in LinkedLibraries(s.db);
    } else {
      assert forall l | l in s.store :: !Orphan(s, l);
    }
  }

  ghost predicate Returned(s: State) {
    forall t | t in s.threads :: s.threads[t] == Finished
  }

  /** Every call has returned, and no timer is left to wait for: the strategy is
      immediate, or it was stopped, or every timer has gone off. */
  ghost predicate AtRest(cfg: Config, s: State) {
    Returned(s) && (cfg.immediate || s.queue.stopped || s.queue.armed == map[])
  }

  /** At rest, with the database still open, the store holds the linked libraries
      and nothing else. */
  lemma StoreEndsExact(cfg: Config, s: State, run: seq<Label>)
    requires CleanBoot(cfg, s) && IsRun(cfg, s, run) && cfg.reliable && !cfg.deletion
    requires AtRest(cfg, Exec(cfg, s, run)) && !Exec(cfg, s, run).closed
    ensures Exact(Exec(cfg, s, run))
  {
    var z := Exec(cfg, s, run);
    NoCleanupIsLost(cfg, s, run, "");
    forall l ensures !Orphan(z, l) {
      assert !Owed(z, l) by {
        assert Waiting(z, l) ==> WillFire(z, l);
      }
    }
    ExactMeansNoOrphan(z);
  }
}
