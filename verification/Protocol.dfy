/** The library manager and its publisher as a step machine.

    Any number of threads run `Publish`, `Unpublish`, timer callbacks and `Stop`.
    One step is one lock operation, one database transaction, one file-store
    operation, one registry call or one mount operation.  The outcome of a step
    that depends on the world outside (a failed transaction, the digest a tag
    resolves to, the content that was downloaded) is read from a `Choice`, so a
    run is a list of labels and every interleaving is some list.
  */
module Protocol {
  import opened Options
  import opened Records
  import S = Scheduler
  import F = Store

  type ThreadId = nat

  type Content = F.Content

  /** The manager's lock keys and the mutex of the delayed strategy. */
  datatype Key = VolumeKey(volume: VolumeId) | SchedulerMutex | LibraryKey(library: LibraryId)

  /** A publish request: the volume and the package named by its context. */
  datatype Request = Request(volume: VolumeId, package: string)

  /** What is fixed during a run, and what the run's environment may do.

      - `immediate`: which cleanup strategy is configured.
      - `reliable`: while the database is open, the bookkeeping steps of publish and
        cleanup do not fail, and the driver does not crash.
      - `orderly`: at most one call in flight per volume.
      - `unmounts`: an unmount that reports success has unmounted the target.
      - `revalidates`: the source path of a volume that is mounted goes on
        resolving to a place inside its library.
      - `deletion`: something outside the driver may empty store directories.
    */
  datatype Config = Config(
    immediate: bool,
    reliable: bool,
    orderly: bool,
    unmounts: bool,
    revalidates: bool,
    deletion: bool)

  datatype PublishPc =
    | LockVolume
    | ReadLink
    | LockLinked(l: LibraryId)
    | CheckLinked(l: LibraryId)
    | Restore(l: LibraryId)
    | Resolve
    | LockResolved(l: LibraryId)
    | CheckStore(l: LibraryId)
    | Download(l: LibraryId)
    | Record(l: LibraryId, size: int)
    | LinkUp(l: LibraryId, fromCache: bool)
    | UnlockLibrary(l: LibraryId, ok: bool)
    | UnlockVolume(result: Option<LibraryId>)
    | Validate(l: LibraryId)
    | Mount(l: LibraryId)

  datatype RemovePc =
    | HasVolume
    | Unmount
    | RemoveLock
    | Unlink
    | ScheduleLock(l: LibraryId)
    | ScheduleEntry(l: LibraryId)
    | ScheduleUnlock
    | RemoveUnlock

  datatype CleanPc = CleanLock | CleanRead | CleanStore | CleanRecord | CleanUnlock

  /** Where control goes after `tryCleanupLibrary` returns: back into an immediate
      `RemoveVolume`, into the stopped branch of `ScheduleCleanup`, to the end of
      a timer callback, or back into the loop of `Stop`. */
  datatype Return = ToRemove(v: VolumeId) | ToSchedule(v: VolumeId) | ToTimer | ToStop(rest: set<LibraryId>)

  datatype TimerPc = TimerLock | TimerCheck | TimerUnlock(consumed: bool)

  /** `DelayedCleanupStrategy.Stop`, then the database is closed. */
  datatype StopPc = StopLock | StopBegin | StopLoop(todo: set<LibraryId>) | StopUnlock | StopClose

  datatype Pc =
    | Finished
    | Publishing(r: Request, p: PublishPc)
    | Removing(v: VolumeId, q: RemovePc)
    | Cleaning(library: LibraryId, c: CleanPc, k: Return)
    | Firing(library: LibraryId, f: TimerPc)
    | Stopping(h: StopPc)

  /** `store` holds the non-empty directories; `mounts` the library whose
      directory is mounted at a volume's target; `closed` says that `Stop` has
      closed the database. */
  datatype State = State(
    db: Db,
    store: map<LibraryId, Content>,
    mounts: map<VolumeId, LibraryId>,
    locks: map<Key, ThreadId>,
    queue: S.Queue,
    threads: map<ThreadId, Pc>,
    closed: bool)

  /** Everything a step asks of the world outside. */
  datatype Choice = Choice(
    fail: bool,             // the transaction, file operation, validation or call fails
    silent: bool,           // the unmount fails and the failure is only logged
    library: LibraryId,     // digest resolved, or next library in the stop loop
    content: Content,       // content downloaded, or left behind by a failed removal
    size: int,
    now: int)

  const NOTHING_FAILS := Choice(false, false, "", [], 0, 0)

  datatype Op = Publish(r: Request) | Unpublish(v: VolumeId) | Stop

  datatype Label =
    | Run(t: ThreadId, choice: Choice)
    | Start(t: ThreadId, op: Op)
    | FireTimer(i: S.TimerId, t: ThreadId)
    | Crash
    | Vanish(l: LibraryId)

  // ---- Locks held and wanted ----

  function ReturnHolds(k: Return): set<Key> {
    match k
    case ToRemove(v) => {VolumeKey(v)}
    case ToSchedule(v) => {VolumeKey(v), SchedulerMutex}
    case ToTimer => {}
    case ToStop(_) => {SchedulerMutex}
  }

  function PublishHolds(v: VolumeId, p: PublishPc): set<Key> {
    match p
    case LockVolume | Validate(_) | Mount(_) => {}
    case ReadLink | LockLinked(_) | Resolve | LockResolved(_) | UnlockVolume(_) => {VolumeKey(v)}
    case CheckLinked(l) => {VolumeKey(v), LibraryKey(l)}
    case Restore(l) => {VolumeKey(v), LibraryKey(l)}
    case CheckStore(l) => {VolumeKey(v), LibraryKey(l)}
    case Download(l) => {VolumeKey(v), LibraryKey(l)}
    case Record(l, _) => {VolumeKey(v), LibraryKey(l)}
    case LinkUp(l, _) => {VolumeKey(v), LibraryKey(l)}
    case UnlockLibrary(l, _) => {VolumeKey(v), LibraryKey(l)}
  }

  function RemoveHolds(v: VolumeId, q: RemovePc): set<Key> {
    match q
    case HasVolume | Unmount | RemoveLock => {}
    case Unlink | ScheduleLock(_) | RemoveUnlock => {VolumeKey(v)}
    case ScheduleEntry(_) | ScheduleUnlock => {VolumeKey(v), SchedulerMutex}
  }

  /** The locks a thread holds at a program counter. */
  function Holds(pc: Pc): set<Key> {
    match pc
    case Finished => {}
    case Publishing(r, p) => PublishHolds(r.volume, p)
    case Removing(v, q) => RemoveHolds(v, q)
    case Cleaning(l, c, k) => ReturnHolds(k) + (if c.CleanLock? then {} else {LibraryKey(l)})
    case Firing(_, f) => if f.TimerLock? then {} else {SchedulerMutex}
    case Stopping(h) => if h.StopLock? || h.StopClose? then {} else {SchedulerMutex}
  }

  /** The lock a thread is about to take, if its next step takes one. */
  function Wants(pc: Pc): Option<Key> {
    match pc
    case Finished => None
    case Publishing(r, LockVolume) => Some(VolumeKey(r.volume))
    case Publishing(_, LockLinked(l)) => Some(LibraryKey(l))
    case Publishing(_, LockResolved(l)) => Some(LibraryKey(l))
    case Publishing(_, _) => None
    case Removing(v, RemoveLock) => Some(VolumeKey(v))
    case Removing(_, ScheduleLock(_)) => Some(SchedulerMutex)
    case Removing(_, _) => None
    case Cleaning(l, c, _) => if c.CleanLock? then Some(LibraryKey(l)) else None
    case Firing(_, f) => if f.TimerLock? then Some(SchedulerMutex) else None
    case Stopping(h) => if h.StopLock? then Some(SchedulerMutex) else None
  }

  /** The lock a thread is about to release, if its next step releases one. */
  function Drops(pc: Pc): Option<Key> {
    match pc
    case Publishing(_, UnlockLibrary(l, _)) => Some(LibraryKey(l))
    case Publishing(r, UnlockVolume(_)) => Some(VolumeKey(r.volume))
    case Removing(_, ScheduleUnlock) => Some(SchedulerMutex)
    case Removing(v, RemoveUnlock) => Some(VolumeKey(v))
    case Cleaning(l, CleanUnlock, _) => Some(LibraryKey(l))
    case Firing(_, TimerUnlock(_)) => Some(SchedulerMutex)
    case Stopping(StopUnlock) => Some(SchedulerMutex)
    case _ => None
  }

  // ---- Control: where a step goes ----

  /** The download failed, or left nothing that the store would accept. */
  predicate NoDownload(c: Choice) {
    c.fail || c.content == []
  }

  /** `GetLibraryForVolume`, then validation of the source path and the bind mount.
      Every publish validates again, and rolls back if that fails, whether or not
      this call made the link. */
  function PublishNext(s: State, r: Request, p: PublishPc, c: Choice): Pc {
    var v := r.volume;
    match p
    case LockVolume => Publishing(r, ReadLink)
    case ReadLink =>
      if c.fail then Publishing(r, UnlockVolume(None))
      else if v in s.db.volumes && s.db.volumes[v].libraryId != "" then
        Publishing(r, LockLinked(s.db.volumes[v].libraryId))
      else Publishing(r, Resolve)
    case LockLinked(l) => Publishing(r, CheckLinked(l))
    case CheckLinked(l) =>
      if c.fail then Publishing(r, UnlockLibrary(l, false))
      else if l in s.store then Publishing(r, UnlockLibrary(l, true))
      else Publishing(r, Restore(l))
    case Restore(l) => Publishing(r, UnlockLibrary(l, !NoDownload(c)))
    case Resolve =>
      if c.fail then Publishing(r, UnlockVolume(None)) else Publishing(r, LockResolved(c.library))
    case LockResolved(l) => Publishing(r, CheckStore(l))
    case CheckStore(l) =>
      if c.fail || l == "" then Publishing(r, UnlockLibrary(l, false))
      else if l in s.store then Publishing(r, LinkUp(l, true))
      else Publishing(r, Download(l))
    case Download(l) =>
      if NoDownload(c) then Publishing(r, UnlockLibrary(l, false)) else Publishing(r, Record(l, c.size))
    case Record(l, size) =>
      if c.fail || AddLibrary(s.db, l, r.package, size).None? then Publishing(r, UnlockLibrary(l, false))
      else Publishing(r, LinkUp(l, false))
    case LinkUp(l, fromCache) =>
      Publishing(r, UnlockLibrary(l, !c.fail && LinkVolume(s.db, l, v, fromCache, c.now).Some?))
    case UnlockLibrary(l, ok) => Publishing(r, UnlockVolume(if ok then Some(l) else None))
    case UnlockVolume(result) => if result.Some? then Publishing(r, Validate(result.value)) else Finished
    case Validate(l) =>
      if !c.fail && l in s.store then Publishing(r, Mount(l)) else Removing(v, RemoveLock)
    case Mount(l) => Finished
  }

  /** `Unpublish`, whose last part is `RemoveVolume`. */
  function RemoveNext(cfg: Config, s: State, v: VolumeId, q: RemovePc, c: Choice): Pc {
    match q
    case HasVolume =>
      if c.fail || v == "" || v !in s.db.volumes || s.db.volumes[v].libraryId == "" then Finished
      else Removing(v, Unmount)
    case Unmount => if c.fail then Finished else Removing(v, RemoveLock)
    case RemoveLock => Removing(v, Unlink)
    case Unlink =>
      var tx := UnlinkVolume(s.db, v);
      if c.fail || tx.None? || tx.value.libraryId == "" then Removing(v, RemoveUnlock)
      else if cfg.immediate then Cleaning(tx.value.libraryId, CleanLock, ToRemove(v))
      else Removing(v, ScheduleLock(tx.value.libraryId))
    case ScheduleLock(l) => Removing(v, ScheduleEntry(l))
    case ScheduleEntry(l) =>
      if s.queue.stopped then Cleaning(l, CleanLock, ToSchedule(v)) else Removing(v, ScheduleUnlock)
    case ScheduleUnlock => Removing(v, RemoveUnlock)
    case RemoveUnlock => Finished
  }

  function Resume(k: Return): Pc {
    match k
    case ToRemove(v) => Removing(v, RemoveUnlock)
    case ToSchedule(v) => Removing(v, ScheduleUnlock)
    case ToTimer => Finished
    case ToStop(rest) => Stopping(StopLoop(rest))
  }

  /** `tryCleanupLibrary`. */
  function CleanNext(s: State, l: LibraryId, p: CleanPc, k: Return, c: Choice): Pc {
    match p
    case CleanLock => Cleaning(l, CleanRead, k)
    case CleanRead =>
      if c.fail || l == "" || VolumeCount(s.db, l) > 0 then Cleaning(l, CleanUnlock, k)
      else Cleaning(l, CleanStore, k)
    case CleanStore => if c.fail then Cleaning(l, CleanUnlock, k) else Cleaning(l, CleanRecord, k)
    case CleanRecord => Cleaning(l, CleanUnlock, k)
    case CleanUnlock => Resume(k)
  }

  /** The callback of a timer started by `ScheduleCleanup`. */
  function TimerNext(s: State, l: LibraryId, f: TimerPc): Pc {
    match f
    case TimerLock => Firing(l, TimerCheck)
    case TimerCheck => Firing(l, TimerUnlock(l in s.queue.pending))
    case TimerUnlock(consumed) => if consumed then Cleaning(l, CleanLock, ToTimer) else Finished
  }

  /** The loop visits the map in any order. */
  function StopNext(s: State, h: StopPc, c: Choice): Pc {
    match h
    case StopLock => Stopping(StopBegin)
    case StopBegin =>
      if s.queue.stopped then Stopping(StopUnlock) else Stopping(StopLoop(s.queue.pending.Keys))
    case StopLoop(todo) =>
      if todo == {} then Stopping(StopUnlock)
      else Cleaning(c.library, CleanLock, ToStop(todo - {c.library}))
    case StopUnlock => Stopping(StopClose)
    case StopClose => Finished
  }

  function PcAfter(cfg: Config, s: State, pc: Pc, c: Choice): Pc {
    match pc
    case Finished => Finished
    case Publishing(r, p) => PublishNext(s, r, p, c)
    case Removing(v, q) => RemoveNext(cfg, s, v, q, c)
    case Cleaning(l, p, k) => CleanNext(s, l, p, k, c)
    case Firing(l, f) => TimerNext(s, l, f)
    case Stopping(h) => StopNext(s, h, c)
  }

  // ---- Effects: what a step writes ----

  function Commit<T>(c: Choice, before: T, tx: Option<T>): T {
    if c.fail || tx.None? then before else tx.value
  }

  function DbAfter(db: Db, pc: Pc, c: Choice): Db {
    match pc
    case Publishing(r, Record(l, size)) => Commit(c, db, AddLibrary(db, l, r.package, size))
    case Publishing(r, LinkUp(l, fromCache)) => Commit(c, db, LinkVolume(db, l, r.volume, fromCache, c.now))
    case Removing(v, Unlink) =>
      var tx := UnlinkVolume(db, v);
      if c.fail || tx.None? then db else tx.value.db
    case Cleaning(l, CleanRecord, _) => Commit(c, db, RemoveLibrary(db, l))
    case _ => db
  }

  /** `Store.Add` keeps a directory that already exists under the ID.  A removal
      that fails part way leaves some other content, or nothing. */
  function StoreAfter(store: map<LibraryId, Content>, pc: Pc, c: Choice): map<LibraryId, Content> {
    match pc
    case Publishing(_, Restore(l)) => if NoDownload(c) || l in store then store else store[l := c.content]
    case Publishing(_, Download(l)) => if NoDownload(c) || l in store then store else store[l := c.content]
    case Cleaning(l, CleanStore, _) =>
      if l !in store then store
      else if c.fail && c.content != [] then store[l := c.content]
      else store - {l}
    case _ => store
  }

  /** `bindMount` leaves an existing mount alone; `bindUnmount` only logs a failed unmount. */
  function MountsAfter(mounts: map<VolumeId, LibraryId>, pc: Pc, c: Choice): map<VolumeId, LibraryId> {
    match pc
    case Publishing(r, Mount(l)) => if c.fail || r.volume in mounts then mounts else mounts[r.volume := l]
    case Removing(v, Unmount) => if c.fail || c.silent then mounts else mounts - {v}
    case _ => mounts
  }

  function QueueAfter(queue: S.Queue, pc: Pc, c: Choice): S.Queue {
    match pc
    case Removing(_, ScheduleEntry(l)) => if queue.stopped then queue else S.Schedule(queue, l)
    case Firing(l, TimerCheck) => if l in queue.pending then S.Consume(queue, l) else queue
    case Stopping(StopBegin) => if queue.stopped then queue else S.Halt(queue)
    case Stopping(StopLoop(todo)) => if todo == {} then S.Clear(queue) else S.StopTimer(queue, c.library)
    case _ => queue
  }

  function LocksAfter(locks: map<Key, ThreadId>, t: ThreadId, pc: Pc): map<Key, ThreadId> {
    if Wants(pc).Some? then locks[Wants(pc).value := t]
    else if Drops(pc).Some? then locks - {Drops(pc).value}
    else locks
  }

  function ThreadStep(cfg: Config, s: State, t: ThreadId, c: Choice): State
    requires t in s.threads
  {
    var pc := s.threads[t];
    State(
      DbAfter(s.db, pc, c),
      StoreAfter(s.store, pc, c),
      MountsAfter(s.mounts, pc, c),
      LocksAfter(s.locks, t, pc),
      QueueAfter(s.queue, pc, c),
      s.threads[t := PcAfter(cfg, s, pc, c)],
      s.closed || pc == Stopping(StopClose))
  }

  // ---- Which steps may happen ----

  /** The steps whose failure a reliable environment rules out. */
  predicate MustSucceed(pc: Pc) {
    match pc
    case Publishing(_, p) => p.Record? || p.LinkUp?
    case Cleaning(_, c, _) => c.CleanRead? || c.CleanStore?
    case _ => false
  }

  /** The steps that are one transaction, which a closed database refuses. */
  predicate Transacts(pc: Pc) {
    match pc
    case Publishing(_, p) => p.ReadLink? || p.Record? || p.LinkUp?
    case Removing(_, q) => q.HasVolume? || q.Unlink?
    case Cleaning(_, c, _) => c.CleanRead? || c.CleanRecord?
    case _ => false
  }

  predicate Refused(s: State, pc: Pc) {
    s.closed && Transacts(pc)
  }

  /** A publish is about to validate the source path of a volume that is mounted. */
  predicate ValidatesMounted(s: State, pc: Pc) {
    pc.Publishing? && pc.p.Validate? && pc.r.volume in s.mounts
  }

  predicate CanRun(cfg: Config, s: State, t: ThreadId, c: Choice) {
    && t in s.threads
    && s.threads[t] != Finished
    && (Wants(s.threads[t]).Some? ==> Wants(s.threads[t]).value !in s.locks)
    && (s.threads[t].Stopping? && s.threads[t].h.StopLoop? && s.threads[t].h.todo != {} ==>
          c.library in s.threads[t].h.todo)
    && (Refused(s, s.threads[t]) ==> c.fail)
    && (cfg.reliable && MustSucceed(s.threads[t]) && !Refused(s, s.threads[t]) ==> !c.fail)
    && (cfg.unmounts ==> !c.silent)
    && (cfg.revalidates && ValidatesMounted(s, s.threads[t]) ==> !c.fail)
  }

  /** The volume whose call a thread is serving. */
  function Serves(pc: Pc): Option<VolumeId> {
    match pc
    case Publishing(r, _) => Some(r.volume)
    case Removing(v, _) => Some(v)
    case Cleaning(_, _, ToRemove(v)) => Some(v)
    case Cleaning(_, _, ToSchedule(v)) => Some(v)
    case _ => None
  }

  ghost predicate Idle(s: State, v: VolumeId) {
    forall t | t in s.threads :: Serves(s.threads[t]) != Some(v)
  }

  ghost predicate CanStart(cfg: Config, s: State, t: ThreadId, op: Op) {
    && t !in s.threads
    && (op.Publish? ==> op.r.package != "")
    && (cfg.orderly && op.Publish? ==> Idle(s, op.r.volume))
    && (cfg.orderly && op.Unpublish? ==> Idle(s, op.v))
  }

  /** An immediate strategy has nothing to stop, so only the database is closed. */
  function First(cfg: Config, op: Op): Pc {
    match op
    case Publish(r) => if r.volume == "" then Finished else Publishing(r, LockVolume)
    case Unpublish(v) => Removing(v, HasVolume)
    case Stop => Stopping(if cfg.immediate then StopClose else StopLock)
  }

  ghost predicate Enabled(cfg: Config, s: State, e: Label) {
    match e
    case Run(t, c) => CanRun(cfg, s, t, c)
    case Start(t, op) => CanStart(cfg, s, t, op)
    case FireTimer(i, t) => i in s.queue.armed && t !in s.threads
    case Crash => !cfg.reliable
    case Vanish(l) => cfg.deletion
  }

  /** The next state.  A crash keeps the database, the store and the mounts. */
  function Next(cfg: Config, s: State, e: Label): State {
    match e
    case Run(t, c) => if t in s.threads then ThreadStep(cfg, s, t, c) else s
    case Start(t, op) => s.(threads := s.threads[t := First(cfg, op)])
    case FireTimer(i, t) =>
      if i in s.queue.armed
      then s.(queue := S.Fire(s.queue, i), threads := s.threads[t := Firing(s.queue.armed[i], TimerLock)])
      else s
    case Crash => State(s.db, s.store, s.mounts, map[], S.EMPTY, map[], false)
    case Vanish(l) => s.(store := s.store - {l})
  }

  // ---- Runs ----

  function Exec(cfg: Config, s: State, run: seq<Label>): State
    decreases |run|
  {
    if run == [] then s else Exec(cfg, Next(cfg, s, run[0]), run[1..])
  }

  ghost predicate IsRun(cfg: Config, s: State, run: seq<Label>)
    decreases |run|
  {
    run == [] || (Enabled(cfg, s, run[0]) && IsRun(cfg, Next(cfg, s, run[0]), run[1..]))
  }

  /** A driver that has just started on an existing database and store. */
  ghost predicate Boot(s: State) {
    && Consistent(s.db)
    && s.locks == map[] && s.threads == map[] && s.queue == S.EMPTY && !s.closed
  }

  lemma ConsRun(cfg: Config, s: State, e: Label, rest: seq<Label>)
    requires Enabled(cfg, s, e) && IsRun(cfg, Next(cfg, s, e), rest)
    ensures IsRun(cfg, s, [e] + rest)
    ensures Exec(cfg, s, [e] + rest) == Exec(cfg, Next(cfg, s, e), rest)
  {
    assert ([e] + rest)[1..] == rest;
  }

  lemma {:induction false} JoinRuns(cfg: Config, s: State, run: seq<Label>, rest: seq<Label>)
    requires IsRun(cfg, s, run) && IsRun(cfg, Exec(cfg, s, run), rest)
    ensures IsRun(cfg, s, run + rest)
    ensures Exec(cfg, s, run + rest) == Exec(cfg, Exec(cfg, s, run), rest)
    decreases |run|
  {
    if run == [] {
      assert run + rest == rest;
    } else {
      JoinRuns(cfg, Next(cfg, s, run[0]), run[1..], rest);
      ConsRun(cfg, s, run[0], run[1..] + rest);
      assert run + rest == [run[0]] + (run[1..] + rest);
    }
  }
}
