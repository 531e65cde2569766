/** What every step of the protocol keeps, in every interleaving. */
module Safety {
  import opened Options
  import opened Records
  import opened Protocol
  import S = Scheduler

  // ---- Locks ----

  /** A lock table agrees with the locks that each thread holds. */
  ghost predicate Agree(locks: map<Key, ThreadId>, held: map<ThreadId, set<Key>>) {
    && (forall t, k | t in held && k in held[t] :: k in locks && locks[k] == t)
    && (forall k | k in locks :: locks[k] in held && k in held[locks[k]])
  }

  function Held(threads: map<ThreadId, Pc>): map<ThreadId, set<Key>> {
    map t | t in threads :: Holds(threads[t])
  }

  /** The lock table says exactly what the program counters say. */
  ghost predicate LocksMatch(s: State) {
    Agree(s.locks, Held(s.threads))
  }

  lemma TakeAgrees(locks: map<Key, ThreadId>, held: map<ThreadId, set<Key>>, t: ThreadId, k: Key)
    requires Agree(locks, held) && t in held && k !in locks
    ensures Agree(locks[k := t], held[t := held[t] + {k}])
  {
  }

  lemma DropAgrees(locks: map<Key, ThreadId>, held: map<ThreadId, set<Key>>, t: ThreadId, k: Key)
    requires Agree(locks, held) && t in held && k in held[t]
    ensures Agree(locks - {k}, held[t := held[t] - {k}])
  {
    var held' := held[t := held[t] - {k}];
    assert locks[k] == t;
    forall u, m | u in held' && m in held'[u] ensures m in locks - {k} && (locks - {k})[m] == u {
      assert m in held[u];
    }
  }

  /** A step changes the locks its thread holds as it changes the lock table. */
  ghost predicate HoldsMove(pc: Pc, pc': Pc) {
    && (Wants(pc).Some? ==> Holds(pc') == Holds(pc) + {Wants(pc).value})
    && (Drops(pc).Some? ==> Wants(pc).None? && Drops(pc).value in Holds(pc))
    && (Drops(pc).Some? ==> Holds(pc') == Holds(pc) - {Drops(pc).value})
    && (Wants(pc).None? && Drops(pc).None? ==> Holds(pc') == Holds(pc))
  }

  lemma PublishHoldsMove(s: State, r: Request, p: PublishPc, c: Choice)
    ensures HoldsMove(Publishing(r, p), PublishNext(s, r, p, c))
  {
  }

  lemma RemoveHoldsMove(cfg: Config, s: State, v: VolumeId, q: RemovePc, c: Choice)
    ensures HoldsMove(Removing(v, q), RemoveNext(cfg, s, v, q, c))
  {
  }

  lemma CleanHoldsMove(s: State, l: LibraryId, p: CleanPc, k: Return, c: Choice)
    ensures HoldsMove(Cleaning(l, p, k), CleanNext(s, l, p, k, c))
  {
  }

  lemma OtherHoldsMove(cfg: Config, s: State, pc: Pc, c: Choice)
    requires pc.Finished? || pc.Firing? || pc.Stopping?
    ensures HoldsMove(pc, PcAfter(cfg, s, pc, c))
  {
  }

  lemma StepHolds(cfg: Config, s: State, pc: Pc, c: Choice)
    ensures HoldsMove(pc, PcAfter(cfg, s, pc, c))
  {
    match pc
    case Publishing(r, p) => PublishHoldsMove(s, r, p, c);
    case Removing(v, q) => RemoveHoldsMove(cfg, s, v, q, c);
    case Cleaning(l, p, k) => CleanHoldsMove(s, l, p, k, c);
    case _ => OtherHoldsMove(cfg, s, pc, c);
  }

  lemma StepLocksMatch(cfg: Config, s: State, t: ThreadId, c: Choice)
    requires LocksMatch(s) && CanRun(cfg, s, t, c)
    ensures LocksMatch(ThreadStep(cfg, s, t, c))
  {
    var pc := s.threads[t];
    var pc' := PcAfter(cfg, s, pc, c);
    StepHolds(cfg, s, pc, c);
    var held := Held(s.threads);
    assert Held(s.threads[t := pc']) == held[t := Holds(pc')];
    if Wants(pc).Some? {
      TakeAgrees(s.locks, held, t, Wants(pc).value);
    } else if Drops(pc).Some? {
      DropAgrees(s.locks, held, t, Drops(pc).value);
    } else {
      assert held[t := Holds(pc')] == held;
    }
  }

  lemma HeldLockIsOwned(s: State, t: ThreadId, k: Key)
    requires LocksMatch(s) && t in s.threads && k in Holds(s.threads[t])
    ensures k in s.locks && s.locks[k] == t
  {
    assert k in Held(s.threads)[t];
  }

  /** Two threads never hold the same lock. */
  lemma MutualExclusion(s: State, t: ThreadId, u: ThreadId)
    requires LocksMatch(s)
    requires t in s.threads && u in s.threads && t != u
    ensures Holds(s.threads[t]) !! Holds(s.threads[u])
  {
    forall k | k in Holds(s.threads[t]) ensures k in s.locks && s.locks[k] == t {
      HeldLockIsOwned(s, t, k);
    }
    forall k | k in Holds(s.threads[u]) ensures k in s.locks && s.locks[k] == u {
      HeldLockIsOwned(s, u, k);
    }
  }

  // ---- What each thread knows while it holds its locks ----

  ghost predicate PublishKnows(cfg: Config, s: State, v: VolumeId, p: PublishPc) {
    match p
    case LockVolume | ReadLink | Validate(_) | Mount(_) => true
    case LockLinked(l) => Link(s.db, v) == Some(l)
    case CheckLinked(l) => Link(s.db, v) == Some(l)
    case Restore(l) => Link(s.db, v) == Some(l) && l !in s.store
    case Resolve | LockResolved(_) | CheckStore(_) => Link(s.db, v) == None
    case Download(l) => Link(s.db, v) == None && l != "" && l !in s.store
    case Record(l, _) => Link(s.db, v) == None && l != "" && (!cfg.deletion ==> l in s.store)
    case LinkUp(l, _) => Link(s.db, v) == None && l != "" && (!cfg.deletion ==> l in s.store)
    case UnlockLibrary(l, ok) => ok ==> Link(s.db, v) == Some(l)
    case UnlockVolume(result) => result.Some? ==> Link(s.db, v) == result
  }

  /** Facts about the shared state that a thread relies on at a program counter.
      They are about data that the locks it holds protect. */
  ghost predicate Knows(cfg: Config, s: State, pc: Pc) {
    match pc
    case Finished => true
    case Publishing(r, p) => r.volume != "" && r.package != "" && PublishKnows(cfg, s, r.volume, p)
    case Removing(v, q) =>
      && (!q.HasVolume? ==> v != "")
      && (q.ScheduleEntry? || q.ScheduleLock? ==> !cfg.immediate && q.l != "")
    case Cleaning(l, c, k) =>
      && (c.CleanStore? || c.CleanRecord? ==> l != "" && LinkedTo(s.db, l) == {})
      && (c.CleanRecord? ==> l !in s.store)
      && (k.ToStop? ==> s.queue.stopped && k.rest <= s.queue.pending.Keys)
      && (k.ToSchedule? ==> s.queue.stopped)
      && (k.ToSchedule? || k.ToRemove? ==> k.v != "")
    case Firing(_, _) => true
    case Stopping(h) =>
      && (h.StopLoop? ==> s.queue.stopped && h.todo <= s.queue.pending.Keys)
      && (h.StopUnlock? || h.StopClose? ==> cfg.immediate || s.queue.stopped)
  }

  /** A volume has the same record, or none, before and after. */
  ghost predicate SameVolume(a: Db, b: Db, v: VolumeId) {
    (v in a.volumes <==> v in b.volumes) && (v in a.volumes ==> b.volumes[v] == a.volumes[v])
  }

  /** A library keeps its directory and its label, and gains no link. */
  ghost predicate LibraryOnlyUnlinked(s: State, s': State, l: LibraryId) {
    && (l in s.store <==> l in s'.store)
    && (l in s.store ==> s'.store[l] == s.store[l])
    && LinkedTo(s'.db, l) <= LinkedTo(s.db, l)
    && VolumeCount(s'.db, l) <= VolumeCount(s.db, l)
    && Library(s'.db, l).package == Library(s.db, l).package
    && Library(s'.db, l).sizeBytes == Library(s.db, l).sizeBytes
  }

  /** What a step can change without holding a lock: nothing that the lock protects. */
  ghost predicate Respects(s: State, s': State, held: set<Key>) {
    && (forall v | VolumeKey(v) !in held :: SameVolume(s.db, s'.db, v))
    && (forall l | LibraryKey(l) !in held :: LibraryOnlyUnlinked(s, s', l))
    && (SchedulerMutex !in held ==> s'.queue.pending == s.queue.pending && s'.queue.stopped == s.queue.stopped)
    && (s.queue.stopped ==> s'.queue.stopped)
  }

  lemma StepKeepsLibrary(cfg: Config, s: State, t: ThreadId, c: Choice, l: LibraryId)
    requires t in s.threads && LibraryKey(l) !in Holds(s.threads[t])
    ensures LibraryOnlyUnlinked(s, ThreadStep(cfg, s, t, c), l)
  {
  }

  /** A step leaves alone whatever is protected by a lock that its thread does not
      hold: volume records, directories, labels, new links, the scheduler. */
  lemma StepRespects(cfg: Config, s: State, t: ThreadId, c: Choice)
    requires t in s.threads
    ensures Respects(s, ThreadStep(cfg, s, t, c), Holds(s.threads[t]))
    ensures SchedulerMutex !in Holds(s.threads[t]) ==> ThreadStep(cfg, s, t, c).queue == s.queue
  {
    forall l | LibraryKey(l) !in Holds(s.threads[t]) ensures LibraryOnlyUnlinked(s, ThreadStep(cfg, s, t, c), l) {
      StepKeepsLibrary(cfg, s, t, c, l);
    }
  }

  /** A thread's facts survive every step of a thread that holds none of its locks. */
  lemma KnowsIsStable(cfg: Config, s: State, s': State, held: set<Key>, pc: Pc)
    requires Knows(cfg, s, pc) && Respects(s, s', held) && held !! Holds(pc)
    ensures Knows(cfg, s', pc)
  {
  }

  // ---- The invariant ----

  /** Every linked volume's library has a non-empty directory in the store. */
  ghost predicate LinkedIsStored(s: State) {
    forall v | v in s.db.volumes :: s.db.volumes[v].libraryId in s.store
  }

  ghost predicate Inv(cfg: Config, s: State) {
    && Consistent(s.db)
    && (!cfg.deletion ==> LinkedIsStored(s))
    && LocksMatch(s)
    && (forall t | t in s.threads :: Knows(cfg, s, s.threads[t]))
  }

  lemma PublishKeepsConsistent(cfg: Config, s: State, r: Request, p: PublishPc, c: Choice)
    requires Consistent(s.db) && Knows(cfg, s, Publishing(r, p))
    ensures Consistent(DbAfter(s.db, Publishing(r, p), c))
  {
    match p
    case Record(l, size) => AddLibraryKeeps(s.db, l, r.package, size);
    case LinkUp(l, fromCache) => LinkVolumeKeeps(s.db, l, r.volume, fromCache, c.now);
    case _ =>
  }

  lemma StepConsistent(cfg: Config, s: State, t: ThreadId, c: Choice)
    requires Consistent(s.db) && t in s.threads && Knows(cfg, s, s.threads[t])
    ensures Consistent(DbAfter(s.db, s.threads[t], c))
  {
    match s.threads[t]
    case Publishing(r, p) => PublishKeepsConsistent(cfg, s, r, p, c);
    case Removing(v, Unlink) =>
      if v != "" && v in s.db.volumes {
        UnlinkVolumeKeeps(s.db, v);
      }
    case Cleaning(l, CleanRecord, _) => RemoveLibraryKeepsIff(s.db, l);
    case _ =>
  }

  lemma StepLinkedIsStored(cfg: Config, s: State, t: ThreadId, c: Choice)
    requires LinkedIsStored(s) && !cfg.deletion && t in s.threads && Knows(cfg, s, s.threads[t])
    ensures LinkedIsStored(ThreadStep(cfg, s, t, c))
  {
    var pc := s.threads[t];
    if pc.Cleaning? && pc.c.CleanStore? {
      forall v | v in s.db.volumes ensures s.db.volumes[v].libraryId != pc.library {
        assert v !in LinkedTo(s.db, pc.library);
      }
    }
  }

  /** A cleanup that reads a zero counter has found a library without links. */
  lemma ZeroCountMeansUnlinked(db: Db, l: LibraryId)
    requires Consistent(db) && VolumeCount(db, l) <= 0
    ensures LinkedTo(db, l) == {}
  {
  }

  /** A publish before it writes to the database. */
  lemma EarlyStepKnows(cfg: Config, s: State, t: ThreadId, c: Choice)
    requires Consistent(s.db) && t in s.threads && s.threads[t].Publishing? && Knows(cfg, s, s.threads[t])
    requires !s.threads[t].p.Record? && !s.threads[t].p.LinkUp?
    ensures Knows(cfg, ThreadStep(cfg, s, t, c), PcAfter(cfg, s, s.threads[t], c))
  {
    assert ThreadStep(cfg, s, t, c).db == s.db;
  }

  lemma PublishStepKnows(cfg: Config, s: State, t: ThreadId, c: Choice)
    requires Consistent(s.db) && t in s.threads && s.threads[t].Publishing? && Knows(cfg, s, s.threads[t])
    ensures Knows(cfg, ThreadStep(cfg, s, t, c), PcAfter(cfg, s, s.threads[t], c))
  {
    if !s.threads[t].p.Record? && !s.threads[t].p.LinkUp? {
      EarlyStepKnows(cfg, s, t, c);
    }
  }

  lemma OtherStepKnows(cfg: Config, s: State, t: ThreadId, c: Choice)
    requires CanRun(cfg, s, t, c)
    requires Consistent(s.db) && !s.threads[t].Publishing? && Knows(cfg, s, s.threads[t])
    ensures Knows(cfg, ThreadStep(cfg, s, t, c), PcAfter(cfg, s, s.threads[t], c))
  {
    var pc := s.threads[t];
    if pc.Cleaning? && pc.c.CleanRead? && VolumeCount(s.db, pc.library) <= 0 {
      ZeroCountMeansUnlinked(s.db, pc.library);
    }
  }

  lemma StepKnows(cfg: Config, s: State, t: ThreadId, c: Choice)
    requires CanRun(cfg, s, t, c)
    requires Consistent(s.db) && Knows(cfg, s, s.threads[t])
    ensures Knows(cfg, ThreadStep(cfg, s, t, c), PcAfter(cfg, s, s.threads[t], c))
  {
    if s.threads[t].Publishing? {
      PublishStepKnows(cfg, s, t, c);
    } else {
      OtherStepKnows(cfg, s, t, c);
    }
  }

  lemma RunKeepsInv(cfg: Config, s: State, t: ThreadId, c: Choice)
    requires Inv(cfg, s) && CanRun(cfg, s, t, c)
    ensures Inv(cfg, ThreadStep(cfg, s, t, c))
  {
    var s' := ThreadStep(cfg, s, t, c);
    StepConsistent(cfg, s, t, c);
    if !cfg.deletion {
      StepLinkedIsStored(cfg, s, t, c);
    }
    StepLocksMatch(cfg, s, t, c);
    forall u | u in s'.threads ensures Knows(cfg, s', s'.threads[u]) {
      if u == t {
        StepKnows(cfg, s, t, c);
      } else {
        StepRespects(cfg, s, t, c);
        MutualExclusion(s, t, u);
        KnowsIsStable(cfg, s, s', Holds(s.threads[t]), s.threads[u]);
      }
    }
  }

  /** Facts are about the database, the store and the queue's entries, nothing else. */
  lemma SameDataSameFacts(cfg: Config, s: State, s': State, pc: Pc)
    requires s'.db == s.db && s'.store == s.store
    requires s'.queue.pending == s.queue.pending && s'.queue.stopped == s.queue.stopped
    requires Knows(cfg, s, pc)
    ensures Knows(cfg, s', pc)
  {
  }

  /** Starting a call or a timer callback adds a thread that holds nothing. */
  lemma SpawnKeepsInv(cfg: Config, s: State, s': State, t: ThreadId, pc: Pc)
    requires Inv(cfg, s) && t !in s.threads && Holds(pc) == {} && Knows(cfg, s', pc)
    requires s' == s.(queue := s'.queue, threads := s.threads[t := pc])
    requires s'.queue.pending == s.queue.pending && s'.queue.stopped == s.queue.stopped
    ensures Inv(cfg, s')
  {
    assert Held(s'.threads) == Held(s.threads)[t := {}];
    forall u | u in s.threads ensures Knows(cfg, s', s.threads[u]) {
      SameDataSameFacts(cfg, s, s', s.threads[u]);
    }
  }

  lemma NextKeepsInv(cfg: Config, s: State, e: Label)
    requires Inv(cfg, s) && Enabled(cfg, s, e)
    ensures Inv(cfg, Next(cfg, s, e))
  {
    var s' := Next(cfg, s, e);
    match e
    case Run(t, c) => RunKeepsInv(cfg, s, t, c);
    case Start(t, op) => SpawnKeepsInv(cfg, s, s', t, First(cfg, op));
    case FireTimer(i, t) => SpawnKeepsInv(cfg, s, s', t, Firing(s.queue.armed[i], TimerLock));
    case Crash =>
    case Vanish(l) =>
      forall t | t in s.threads ensures Knows(cfg, s', s.threads[t]) {
      }
  }

  // ---- Over whole runs ----

  /** A driver that boots on a consistent database, whose linked libraries are on
      disk unless something outside may delete them. */
  ghost predicate Init(cfg: Config, s: State) {
    Boot(s) && (!cfg.deletion ==> LinkedIsStored(s))
  }

  lemma {:induction false} RunKeepsAll(cfg: Config, s: State, run: seq<Label>)
    requires Inv(cfg, s) && IsRun(cfg, s, run)
    ensures Inv(cfg, Exec(cfg, s, run))
    decreases |run|
  {
    if run == [] {
    } else {
      NextKeepsInv(cfg, s, run[0]);
      RunKeepsAll(cfg, Next(cfg, s, run[0]), run[1..]);
    }
  }

  lemma ReachableInv(cfg: Config, s: State, run: seq<Label>)
    requires Init(cfg, s) && IsRun(cfg, s, run)
    ensures Inv(cfg, Exec(cfg, s, run))
  {
    assert Inv(cfg, s);
    RunKeepsAll(cfg, s, run);
  }

  /** In every interleaving of publishes, unpublishes, timers, stops and crashes,
      the library of every linked volume is on disk. */
  lemma LibraryInUseIsNeverRemoved(cfg: Config, s: State, run: seq<Label>, v: VolumeId)
    requires Init(cfg, s) && IsRun(cfg, s, run) && !cfg.deletion
    requires v in Exec(cfg, s, run).db.volumes
    ensures Exec(cfg, s, run).db.volumes[v].libraryId in Exec(cfg, s, run).store
  {
    ReachableInv(cfg, s, run);
  }

  /** Even where something outside may delete directories, no step of the driver
      changes the directory of a library that a volume is linked to. */
  lemma OnlyDeletionTouchesLinkedDirectory(cfg: Config, s: State, e: Label, v: VolumeId)
    requires Inv(cfg, s) && Enabled(cfg, s, e) && v in s.db.volumes
    requires s.db.volumes[v].libraryId in s.store && e != Vanish(s.db.volumes[v].libraryId)
    ensures var l := s.db.volumes[v].libraryId;
            l in Next(cfg, s, e).store && Next(cfg, s, e).store[l] == s.store[l]
  {
    assert v in LinkedTo(s.db, s.db.volumes[v].libraryId);
  }

  /** A step that drops a library's record finds the directory gone: a removal that
      fails leaves the record for a later cleanup. */
  lemma RecordGoesAfterDirectory(cfg: Config, s: State, run: seq<Label>, e: Label, l: LibraryId)
    requires Init(cfg, s) && IsRun(cfg, s, run) && Enabled(cfg, Exec(cfg, s, run), e)
    requires var z := Exec(cfg, s, run); l in z.db.libraries && l !in Next(cfg, z, e).db.libraries
    ensures l !in Exec(cfg, s, run).store && LinkedTo(Exec(cfg, s, run).db, l) == {}
  {
    ReachableInv(cfg, s, run);
    assert Knows(cfg, Exec(cfg, s, run), Exec(cfg, s, run).threads[e.t]);
  }

  /** In every reachable state each counter is the number of links, the guard in
      `UnlinkVolume` never suppresses a decrement, and a cleanup that is about to
      delete the directory or the record of a library finds no volume linked to it. */
  lemma CountersMatchLinks(cfg: Config, s: State, run: seq<Label>)
    requires Init(cfg, s) && IsRun(cfg, s, run)
    ensures var z := Exec(cfg, s, run);
            && (forall l :: VolumeCount(z.db, l) == |LinkedTo(z.db, l)|)
            && (forall v | v in z.db.volumes :: VolumeCount(z.db, z.db.volumes[v].libraryId) > 0)
            && (forall t | t in z.threads && z.threads[t].Cleaning? :: var pc := z.threads[t];
                  pc.c.CleanStore? || pc.c.CleanRecord? ==> LinkedTo(z.db, pc.library) == {})
  {
    ReachableInv(cfg, s, run);
    var z := Exec(cfg, s, run);
    forall v | v in z.db.volumes ensures VolumeCount(z.db, z.db.volumes[v].libraryId) > 0 {
      assert v in LinkedTo(z.db, z.db.volumes[v].libraryId);
    }
  }

  /** A crash between any two steps of any run leaves a state a driver can boot on. */
  lemma CrashLeavesBootableState(cfg: Config, s: State, run: seq<Label>)
    requires Init(cfg, s) && IsRun(cfg, s, run)
    ensures var z := Exec(cfg, s, run);
            var crashed := Next(cfg, z, Crash);
            Init(cfg, crashed) && crashed.db == z.db && crashed.store == z.store
  {
    ReachableInv(cfg, s, run);
  }

  // ---- Idempotent publishing ----

  /** No step re-points a linked volume; only an unlink ends its link. */
  lemma LinkNeverMoves(cfg: Config, s: State, e: Label, v: VolumeId)
    requires Inv(cfg, s) && Enabled(cfg, s, e)
    requires v in s.db.volumes && v in Next(cfg, s, e).db.volumes
    ensures Next(cfg, s, e).db.volumes[v] == s.db.volumes[v]
  {
  }

  /** While its volume is linked, a publish writes nothing to the database. */
  lemma RepublishWritesNothing(cfg: Config, s: State, t: ThreadId, c: Choice)
    requires Inv(cfg, s) && CanRun(cfg, s, t, c)
    requires s.threads[t].Publishing? && s.threads[t].r.volume in s.db.volumes
    ensures ThreadStep(cfg, s, t, c).db == s.db
  {
    assert Knows(cfg, s, s.threads[t]);
  }

  /** The volume stays linked in every state of the run. */
  ghost predicate StaysLinked(cfg: Config, s: State, run: seq<Label>, v: VolumeId)
    decreases |run|
  {
    v in s.db.volumes && (run != [] ==> StaysLinked(cfg, Next(cfg, s, run[0]), run[1..], v))
  }

  /** As long as a volume stays linked, whatever its tag resolves to and whatever
      else runs, its record is unchanged and every publish of it that is about to
      return successfully returns the library it was linked to at the start. */
  lemma {:induction false} RepublishReturnsTheSameLibrary(cfg: Config, s: State, run: seq<Label>, v: VolumeId)
    requires Inv(cfg, s) && IsRun(cfg, s, run) && StaysLinked(cfg, s, run, v)
    ensures var z := Exec(cfg, s, run);
            && v in z.db.volumes && z.db.volumes[v] == s.db.volumes[v]
            && (forall t | t in z.threads && z.threads[t].Publishing? && z.threads[t].r.volume == v ::
                  var p := z.threads[t].p;
                  p.UnlockVolume? && p.result.Some? ==> p.result.value == s.db.volumes[v].libraryId)
    decreases |run|
  {
    if run == [] {
      forall t | t in s.threads && s.threads[t].Publishing? && s.threads[t].r.volume == v
        ensures var p := s.threads[t].p;
                p.UnlockVolume? && p.result.Some? ==> p.result.value == s.db.volumes[v].libraryId
      {
        assert Knows(cfg, s, s.threads[t]);
      }
    } else {
      LinkNeverMoves(cfg, s, run[0], v);
      NextKeepsInv(cfg, s, run[0]);
      RepublishReturnsTheSameLibrary(cfg, Next(cfg, s, run[0]), run[1..], v);
    }
  }
}
