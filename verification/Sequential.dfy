/** The step machine against the manager's operations: a call, a timer or a stop that
    runs while no other call is in flight does to the database and the store what the
    sequential operation does, and to the mounts what the publisher promises. */
module Sequential {
  import opened Options
  import opened Records
  import opened Protocol
  import opened Safety
  import opened Progress
  import M = Manager
  import X = Metrics
  import S = Scheduler

  /** Every thread but one has finished. */
  ghost predicate Alone(s: State, t: ThreadId) {
    t in s.threads && forall u | u in s.threads && u != t :: s.threads[u] == Finished
  }

  /** A thread that runs alone never waits. */
  lemma AloneNeverWaits(s: State, t: ThreadId)
    requires LocksMatch(s) && Alone(s, t) && Wants(s.threads[t]).Some?
    ensures Wants(s.threads[t]).value !in s.locks
  {
    var k := Wants(s.threads[t]).value;
    if k in s.locks {
      assert k in Held(s.threads)[s.locks[k]];
      LockOrder(s.threads[t], k);
    }
  }

  /** What the registry, the clock and the validation give during one publish. */
  datatype World = World(resolved: Option<LibraryId>, download: Option<M.Download>, now: int, validates: bool)

  /** Nothing fails but a resolution or a download that the registry refuses, and a
      validation that does not find the source path inside the library. */
  function ChoiceFor(pc: Pc, e: World): Choice {
    if pc.Publishing? then
      var d := e.download.UnwrapOr(M.Download([], 0));
      var refused :=
        || (pc.p.Resolve? && e.resolved.None?)
        || ((pc.p.Download? || pc.p.Restore?) && M.Useless(e.download))
        || (pc.p.Validate? && !e.validates);
      Choice(refused, false, e.resolved.UnwrapOr(""), d.content, d.size, e.now)
    else NOTHING_FAILS
  }

  /** The run is nothing but the steps of one thread, with the outcomes of its world. */
  ghost predicate Scripted(cfg: Config, s: State, run: seq<Label>, t: ThreadId, e: World)
    decreases |run|
  {
    run != [] ==>
      && t in s.threads && run[0] == Run(t, ChoiceFor(s.threads[t], e))
      && Scripted(cfg, Next(cfg, s, run[0]), run[1..], t, e)
  }

  lemma ConsScript(cfg: Config, s: State, t: ThreadId, rest: seq<Label>, e: World)
    requires t in s.threads && CanRun(cfg, s, t, ChoiceFor(s.threads[t], e))
    requires var s' := Next(cfg, s, Run(t, ChoiceFor(s.threads[t], e))); IsRun(cfg, s', rest) && Scripted(cfg, s', rest, t, e)
    ensures var step := Run(t, ChoiceFor(s.threads[t], e));
            && IsRun(cfg, s, [step] + rest) && Scripted(cfg, s, [step] + rest, t, e)
            && Exec(cfg, s, [step] + rest) == Exec(cfg, Next(cfg, s, step), rest)
  {
    var step := Run(t, ChoiceFor(s.threads[t], e));
    ConsRun(cfg, s, step, rest);
    assert ([step] + rest)[1..] == rest;
  }

  lemma {:induction false} JoinScripts(cfg: Config, s: State, t: ThreadId, run: seq<Label>, rest: seq<Label>, e: World)
    requires Scripted(cfg, s, run, t, e) && Scripted(cfg, Exec(cfg, s, run), rest, t, e)
    ensures Scripted(cfg, s, run + rest, t, e)
    decreases |run|
  {
    if run == [] {
      assert run + rest == rest;
    } else {
      assert (run + rest)[0] == run[0] && (run + rest)[1..] == run[1..] + rest;
      JoinScripts(cfg, Next(cfg, s, run[0]), t, run[1..], rest, e);
    }
  }

  datatype Final = Final(db: Db, store: map<LibraryId, Content>, library: Option<LibraryId>)

  function NoGauges(): X.Gauges {
    X.Gauges(map[], map[], map[])
  }

  /** The sequential publish, gauges aside. */
  ghost function Whole(db: Db, store: map<LibraryId, Content>, r: Request, e: World): Final {
    var p := M.Publish(M.World(db, store, NoGauges()), r.volume, r.package, e.resolved, e.download, e.now);
    Final(p.w.db, p.w.store, p.library)
  }

  ghost function Linked(db: Db, store: map<LibraryId, Content>, l: LibraryId, r: Request, fromCache: bool, now: int): Final {
    Final(LinkVolume(db, l, r.volume, fromCache, now).UnwrapOr(db), store, Some(l))
  }

  ghost function Recorded(db: Db, store: map<LibraryId, Content>, l: LibraryId, r: Request, size: int, now: int): Final {
    Linked(AddLibrary(db, l, r.package, size).UnwrapOr(db), store, l, r, false, now)
  }

  ghost function RestLinked(db: Db, store: map<LibraryId, Content>, l: LibraryId, e: World): Final {
    if l in store then Final(db, store, Some(l))
    else if M.Useless(e.download) then Final(db, store, None)
    else Final(db, store[l := e.download.value.content], Some(l))
  }

  ghost function RestResolved(db: Db, store: map<LibraryId, Content>, l: LibraryId, r: Request, e: World): Final {
    if l == "" then Final(db, store, None)
    else if l in store then Linked(db, store, l, r, true, e.now)
    else if M.Useless(e.download) then Final(db, store, None)
    else Recorded(db, store[l := e.download.value.content], l, r, e.download.value.size, e.now)
  }

  /** How a publish ends from each point, if it goes on alone. */
  ghost function Rest(db: Db, store: map<LibraryId, Content>, r: Request, p: PublishPc, e: World): Final {
    match p
    case LockVolume | ReadLink => Whole(db, store, r, e)
    case LockLinked(l) => RestLinked(db, store, l, e)
    case CheckLinked(l) => RestLinked(db, store, l, e)
    case Restore(l) => RestLinked(db, store, l, e)
    case Resolve => Whole(db, store, r, e)
    case LockResolved(l) => RestResolved(db, store, l, r, e)
    case CheckStore(l) => RestResolved(db, store, l, r, e)
    case Download(l) => RestResolved(db, store, l, r, e)
    case Record(l, size) => Recorded(db, store, l, r, size, e.now)
    case LinkUp(l, fromCache) => Linked(db, store, l, r, fromCache, e.now)
    case UnlockLibrary(l, ok) => Final(db, store, if ok then Some(l) else None)
    case UnlockVolume(result) => Final(db, store, result)
    case Validate(l) => Final(db, store, Some(l))
    case Mount(l) => Final(db, store, Some(l))
  }

  /** The points before `GetLibraryForVolume` returns. */
  predicate InCall(pc: Pc) {
    pc.Publishing? && !pc.p.Validate? && !pc.p.Mount?
  }

  /** The points of `RemoveVolume` and of a timer callback, their cleanup included. */
  predicate InTail(pc: Pc) {
    match pc
    case Removing(_, q) => !q.HasVolume? && !q.Unmount?
    case Cleaning(_, _, k) => !k.ToStop?
    case Firing(_, _) => true
    case _ => false
  }

  /** What has been settled at a program counter after the call. */
  ghost predicate EndsAs(s: State, t: ThreadId, f: Final, r: Request) {
    && t in s.threads && s.db == f.db && s.store == f.store
    && s.threads[t] == if f.library.Some? then Publishing(r, Validate(f.library.value)) else Finished
  }

  lemma RestIsWhole(db: Db, store: map<LibraryId, Content>, r: Request, e: World)
    requires r.volume != "" && r.package != ""
    ensures Link(db, r.volume).UnwrapOr("") != "" ==>
              Whole(db, store, r, e) == RestLinked(db, store, db.volumes[r.volume].libraryId, e)
    ensures Link(db, r.volume).UnwrapOr("") == "" && e.resolved.Some? ==>
              Whole(db, store, r, e) == RestResolved(db, store, e.resolved.value, r, e)
    ensures Link(db, r.volume).UnwrapOr("") == "" && e.resolved.None? ==>
              Whole(db, store, r, e) == Final(db, store, None)
  {
  }

  /** A step leaves the outcome of the publish as it was. */
  ghost predicate OutcomeStays(cfg: Config, s: State, t: ThreadId, e: World)
    requires t in s.threads && s.threads[t].Publishing?
  {
    var r, p := s.threads[t].r, s.threads[t].p;
    var c := ChoiceFor(s.threads[t], e);
    var db', store' := DbAfter(s.db, s.threads[t], c), StoreAfter(s.store, s.threads[t], c);
    var pc' := PublishNext(s, r, p, c);
    var f := Rest(s.db, s.store, r, p, e);
    if pc'.Publishing? then pc'.r == r && !pc'.p.Mount? && Rest(db', store', r, pc'.p, e) == f
    else pc' == Finished && db' == f.db && store' == f.store && f.library == None
  }

  lemma EarlyOutcomeStays(cfg: Config, s: State, t: ThreadId, e: World)
    requires t in s.threads && s.threads[t].Publishing? && Knows(cfg, s, s.threads[t]) && Consistent(s.db)
    requires var p := s.threads[t].p; p.LockVolume? || p.ReadLink? || p.Resolve?
    ensures OutcomeStays(cfg, s, t, e)
  {
    RestIsWhole(s.db, s.store, s.threads[t].r, e);
  }

  lemma LinkedOutcomeStays(cfg: Config, s: State, t: ThreadId, e: World)
    requires t in s.threads && s.threads[t].Publishing? && Knows(cfg, s, s.threads[t])
    requires var p := s.threads[t].p; p.LockLinked? || p.CheckLinked? || p.Restore?
    ensures OutcomeStays(cfg, s, t, e)
  {
  }

  lemma ResolvedOutcomeStays(cfg: Config, s: State, t: ThreadId, e: World)
    requires t in s.threads && s.threads[t].Publishing? && Knows(cfg, s, s.threads[t])
    requires var p := s.threads[t].p; p.LockResolved? || p.CheckStore? || p.Download?
    ensures OutcomeStays(cfg, s, t, e)
  {
  }

  lemma WriteOutcomeStays(cfg: Config, s: State, t: ThreadId, e: World)
    requires t in s.threads && s.threads[t].Publishing? && Knows(cfg, s, s.threads[t])
    requires s.threads[t].p.Record? || s.threads[t].p.LinkUp?
    ensures OutcomeStays(cfg, s, t, e)
  {
  }

  lemma UnlockOutcomeStays(cfg: Config, s: State, t: ThreadId, e: World)
    requires t in s.threads && s.threads[t].Publishing? && Knows(cfg, s, s.threads[t])
    requires s.threads[t].p.UnlockLibrary? || s.threads[t].p.UnlockVolume?
    ensures OutcomeStays(cfg, s, t, e)
  {
  }

  lemma StepKeepsOutcome(cfg: Config, s: State, t: ThreadId, e: World)
    requires t in s.threads && InCall(s.threads[t])
    requires Knows(cfg, s, s.threads[t]) && Consistent(s.db)
    ensures OutcomeStays(cfg, s, t, e)
  {
    match s.threads[t].p
    case LockVolume | ReadLink | Resolve => EarlyOutcomeStays(cfg, s, t, e);
    case LockLinked(_) | CheckLinked(_) | Restore(_) => LinkedOutcomeStays(cfg, s, t, e);
    case LockResolved(_) | CheckStore(_) | Download(_) => ResolvedOutcomeStays(cfg, s, t, e);
    case Record(_, _) | LinkUp(_, _) => WriteOutcomeStays(cfg, s, t, e);
    case UnlockLibrary(_, _) | UnlockVolume(_) => UnlockOutcomeStays(cfg, s, t, e);
  }

  /** What a lone call leaves alone, beside the database and the store. */
  ghost predicate StillAlone(cfg: Config, s: State, z: State, t: ThreadId) {
    Inv(cfg, z) && Alone(z, t) && z.mounts == s.mounts && !z.closed
  }

  /** One more step of a call that runs alone. */
  lemma StepStaysAlone(cfg: Config, s: State, t: ThreadId, c: Choice)
    requires Inv(cfg, s) && Alone(s, t) && !s.closed
    requires InCall(s.threads[t]) || InTail(s.threads[t])
    requires !c.silent && (MustSucceed(s.threads[t]) ==> !c.fail)
    ensures CanRun(cfg, s, t, c)
    ensures StillAlone(cfg, s, ThreadStep(cfg, s, t, c), t)
  {
    if Wants(s.threads[t]).Some? {
      AloneNeverWaits(s, t);
    }
    RunKeepsInv(cfg, s, t, c);
  }

  /** One step of a lone publish ends it as foreseen, or leaves it with the same end. */
  lemma PublishMovesOn(cfg: Config, s: State, t: ThreadId, e: World)
    requires Inv(cfg, s) && t in s.threads && InCall(s.threads[t])
    ensures var s', r := ThreadStep(cfg, s, t, ChoiceFor(s.threads[t], e)), s.threads[t].r;
            var f := Rest(s.db, s.store, r, s.threads[t].p, e);
            if InCall(s'.threads[t])
            then && s'.threads[t].r == r
                 && Weight(s'.threads[t]) < Weight(s.threads[t])
                 && Rest(s'.db, s'.store, r, s'.threads[t].p, e) == f
            else EndsAs(s', t, f, r)
  {
    var pc := s.threads[t];
    var c := ChoiceFor(pc, e);
    assert Knows(cfg, s, pc);
    StepKeepsOutcome(cfg, s, t, e);
    PublishWeight(s, pc.r, pc.p, c);
  }

  /** From any point of `GetLibraryForVolume`, a publish that goes on alone returns
      with the outcome that the sequential operation gives. */
  lemma {:induction false} PublishGoesOnAlone(cfg: Config, s: State, t: ThreadId, e: World) returns (run: seq<Label>)
    requires Inv(cfg, s) && !s.closed && Alone(s, t) && InCall(s.threads[t])
    ensures IsRun(cfg, s, run) && Scripted(cfg, s, run, t, e) && StillAlone(cfg, s, Exec(cfg, s, run), t)
    ensures Exec(cfg, s, run).queue == s.queue
    ensures EndsAs(Exec(cfg, s, run), t, Rest(s.db, s.store, s.threads[t].r, s.threads[t].p, e), s.threads[t].r)
    decreases Weight(s.threads[t])
  {
    var pc := s.threads[t];
    var c := ChoiceFor(pc, e);
    StepStaysAlone(cfg, s, t, c);
    var s' := Next(cfg, s, Run(t, c));
    PublishMovesOn(cfg, s, t, e);
    if InCall(s'.threads[t]) {
      var rest := PublishGoesOnAlone(cfg, s', t, e);
      ConsScript(cfg, s, t, rest, e);
      run := [Run(t, c)] + rest;
    } else {
      ConsScript(cfg, s, t, [], e);
      run := [Run(t, c)] + [];
    }
  }

  /** A publish with nothing else in flight is the sequential publish. */
  lemma PublishAloneIsSequential(cfg: Config, s: State, t: ThreadId, r: Request, e: World) returns (run: seq<Label>)
    requires Inv(cfg, s) && !s.closed && Alone(s, t) && s.threads[t] == Publishing(r, LockVolume)
    ensures IsRun(cfg, s, run) && Scripted(cfg, s, run, t, e) && StillAlone(cfg, s, Exec(cfg, s, run), t)
    ensures Exec(cfg, s, run).queue == s.queue
    ensures var z := Exec(cfg, s, run);
            var p := M.Publish(M.World(s.db, s.store, NoGauges()), r.volume, r.package, e.resolved, e.download, e.now);
            && t in z.threads && z.db == p.w.db && z.store == p.w.store
            && z.threads[t] == if p.library.Some? then Publishing(r, Validate(p.library.value)) else Finished
  {
    run := PublishGoesOnAlone(cfg, s, t, e);
  }

  // ---- Removing a volume ----

  datatype Rested = Rested(db: Db, store: map<LibraryId, Content>, queue: S.Queue)

  ghost function Cleaned(s: State, l: LibraryId): Rested {
    var w := M.Cleanup(M.World(s.db, s.store, NoGauges()), l);
    Rested(w.db, w.store, s.queue)
  }

  /** What scheduling a cleanup comes to: at once, or an entry in the queue. */
  ghost function ScheduledOnce(cfg: Config, s: State, l: LibraryId): Rested {
    if cfg.immediate || s.queue.stopped then Cleaned(s, l)
    else Rested(s.db, s.store, S.Schedule(s.queue, l))
  }

  ghost function WholeRemove(cfg: Config, s: State, v: VolumeId): Rested {
    var removed := M.Remove(M.World(s.db, s.store, NoGauges()), v);
    var s' := s.(db := removed.w.db);
    if removed.library.None? then Rested(s'.db, s'.store, s'.queue) else ScheduledOnce(cfg, s', removed.library.value)
  }

  /** How a removal or a callback ends from each point, if it goes on alone. */
  ghost function RestRemove(cfg: Config, s: State, pc: Pc): Rested {
    match pc
    case Removing(v, RemoveLock) => WholeRemove(cfg, s, v)
    case Removing(v, Unlink) => WholeRemove(cfg, s, v)
    case Removing(_, ScheduleLock(l)) => ScheduledOnce(cfg, s, l)
    case Removing(_, ScheduleEntry(l)) => ScheduledOnce(cfg, s, l)
    case Cleaning(l, CleanLock, _) => Cleaned(s, l)
    case Cleaning(l, CleanRead, _) => Cleaned(s, l)
    case Cleaning(l, CleanStore, _) => Rested(RemoveLibrary(s.db, l).UnwrapOr(s.db), s.store - {l}, s.queue)
    case Cleaning(l, CleanRecord, _) => Rested(RemoveLibrary(s.db, l).UnwrapOr(s.db), s.store, s.queue)
    case Firing(l, TimerUnlock(consumed)) => if consumed then Cleaned(s, l) else Rested(s.db, s.store, s.queue)
    case Firing(l, _) =>
      if l in s.queue.pending then Cleaned(s.(queue := S.Consume(s.queue, l)), l) else Rested(s.db, s.store, s.queue)
    case _ => Rested(s.db, s.store, s.queue)
  }

  ghost predicate RemovalStays(cfg: Config, s: State, t: ThreadId)
    requires t in s.threads
  {
    var s' := ThreadStep(cfg, s, t, NOTHING_FAILS);
    && (InTail(s'.threads[t]) || s'.threads[t] == Finished)
    && RestRemove(cfg, s', s'.threads[t]) == RestRemove(cfg, s, s.threads[t])
  }

  lemma UnlinkStays(cfg: Config, s: State, t: ThreadId)
    requires t in s.threads && s.threads[t].Removing? && Knows(cfg, s, s.threads[t])
    requires s.threads[t].q.RemoveLock? || s.threads[t].q.Unlink?
    ensures RemovalStays(cfg, s, t)
  {
  }

  lemma RemoveStays(cfg: Config, s: State, t: ThreadId)
    requires t in s.threads && s.threads[t].Removing? && InTail(s.threads[t]) && Knows(cfg, s, s.threads[t])
    ensures RemovalStays(cfg, s, t)
  {
    if s.threads[t].q.RemoveLock? || s.threads[t].q.Unlink? {
      UnlinkStays(cfg, s, t);
    }
  }

  lemma CleanStays(cfg: Config, s: State, t: ThreadId)
    requires t in s.threads && s.threads[t].Cleaning? && InTail(s.threads[t]) && Knows(cfg, s, s.threads[t])
    ensures RemovalStays(cfg, s, t)
  {
    var l := s.threads[t].library;
    assert l !in s.store ==> s.store - {l} == s.store;
  }

  lemma TimerStays(cfg: Config, s: State, t: ThreadId)
    requires t in s.threads && s.threads[t].Firing?
    ensures RemovalStays(cfg, s, t)
  {
  }

  lemma TailStays(cfg: Config, s: State, t: ThreadId)
    requires t in s.threads && InTail(s.threads[t]) && Knows(cfg, s, s.threads[t])
    ensures RemovalStays(cfg, s, t)
  {
    match s.threads[t]
    case Removing(_, _) => RemoveStays(cfg, s, t);
    case Cleaning(_, _, _) => CleanStays(cfg, s, t);
    case Firing(_, _) => TimerStays(cfg, s, t);
  }

  lemma {:induction false} RemoveGoesOnAlone(cfg: Config, s: State, t: ThreadId, e: World) returns (run: seq<Label>)
    requires Inv(cfg, s) && !s.closed && Alone(s, t) && InTail(s.threads[t])
    ensures IsRun(cfg, s, run) && Scripted(cfg, s, run, t, e) && StillAlone(cfg, s, Exec(cfg, s, run), t)
    ensures var z, f := Exec(cfg, s, run), RestRemove(cfg, s, s.threads[t]);
            t in z.threads && z.threads[t] == Finished && z.db == f.db && z.store == f.store && z.queue == f.queue
    decreases Weight(s.threads[t]) + QueueWeight(s.queue)
  {
    var pc := s.threads[t];
    StepStaysAlone(cfg, s, t, NOTHING_FAILS);
    var s' := Next(cfg, s, Run(t, NOTHING_FAILS));
    assert Knows(cfg, s, pc);
    TailStays(cfg, s, t);
    StepWeight(cfg, s, t, NOTHING_FAILS);
    if InTail(s'.threads[t]) {
      var rest := RemoveGoesOnAlone(cfg, s', t, e);
      ConsScript(cfg, s, t, rest, e);
      run := [Run(t, NOTHING_FAILS)] + rest;
    } else {
      ConsScript(cfg, s, t, [], e);
      run := [Run(t, NOTHING_FAILS)] + [];
    }
  }

  /** What the gauges show has no effect on a cleanup. */
  lemma GaugesDoNotMatter(db: Db, store: map<LibraryId, Content>, v: VolumeId)
    ensures var removed := M.Remove(M.World(db, store, NoGauges()), v);
            && removed.w.store == store
            && (removed.library.Some? ==>
                  var a := M.Cleanup(removed.w, removed.library.value);
                  var b := M.Cleanup(M.World(removed.w.db, store, NoGauges()), removed.library.value);
                  a.db == b.db && a.store == b.store)
  {
  }

  /** A removal with nothing else in flight is the sequential one: the cleanup has
      run when the strategy is immediate or stopped, and is queued otherwise. */
  lemma RemoveAloneIsSequential(cfg: Config, s: State, t: ThreadId, v: VolumeId, e: World) returns (run: seq<Label>)
    requires Inv(cfg, s) && !s.closed && Alone(s, t) && s.threads[t] == Removing(v, RemoveLock)
    ensures IsRun(cfg, s, run) && Scripted(cfg, s, run, t, e) && StillAlone(cfg, s, Exec(cfg, s, run), t)
    ensures var z := Exec(cfg, s, run);
            var removed := M.Remove(M.World(s.db, s.store, NoGauges()), v);
            var cleaned := if removed.library.None? then removed.w else M.Cleanup(removed.w, removed.library.value);
            var atOnce := cfg.immediate || s.queue.stopped;
            && t in z.threads && z.threads[t] == Finished
            && (atOnce || removed.library.None? ==> z.db == cleaned.db && z.store == cleaned.store && z.queue == s.queue)
            && (!atOnce && removed.library.Some? ==>
                  z.db == removed.w.db && z.store == removed.w.store && z.queue == S.Schedule(s.queue, removed.library.value))
  {
    run := RemoveGoesOnAlone(cfg, s, t, e);
    GaugesDoNotMatter(s.db, s.store, v);
  }
}
