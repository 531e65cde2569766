/** One call, one timer or one stop from start to end, while nothing else runs: what
    it leaves in the database, the store, the queue and the mounts. */
module FromRest {
  import opened Options
  import opened Records
  import opened Protocol
  import opened Safety
  import opened Progress
  import opened Reclaim
  import opened Sequential
  import M = Manager
  import S = Scheduler

  /** A driver with every call returned and its database open. */
  ghost predicate Resting(cfg: Config, s: State) {
    Inv(cfg, s) && Returned(s) && !s.closed
  }

  /** The run starts the call and goes on with its steps alone, to its end. */
  ghost predicate Completes(cfg: Config, s: State, start: Label, run: seq<Label>, t: ThreadId, e: World) {
    && run != [] && run[0] == start && IsRun(cfg, s, run)
    && Scripted(cfg, Next(cfg, s, start), run[1..], t, e)
    && t in Exec(cfg, s, run).threads && Exec(cfg, s, run).threads[t] == Finished
  }

  lemma CompletesAfter(cfg: Config, s: State, start: Label, rest: seq<Label>, t: ThreadId, e: World)
    requires Enabled(cfg, s, start)
    requires var s1 := Next(cfg, s, start);
             && IsRun(cfg, s1, rest) && Scripted(cfg, s1, rest, t, e)
             && t in Exec(cfg, s1, rest).threads && Exec(cfg, s1, rest).threads[t] == Finished
    ensures Completes(cfg, s, start, [start] + rest, t, e)
    ensures Exec(cfg, s, [start] + rest) == Exec(cfg, Next(cfg, s, start), rest)
  {
    ConsRun(cfg, s, start, rest);
    assert ([start] + rest)[1..] == rest;
  }

  lemma JoinScriptedRuns(cfg: Config, s: State, run: seq<Label>, rest: seq<Label>, t: ThreadId, e: World)
    requires IsRun(cfg, s, run) && Scripted(cfg, s, run, t, e)
    requires IsRun(cfg, Exec(cfg, s, run), rest) && Scripted(cfg, Exec(cfg, s, run), rest, t, e)
    ensures IsRun(cfg, s, run + rest) && Scripted(cfg, s, run + rest, t, e)
    ensures Exec(cfg, s, run + rest) == Exec(cfg, Exec(cfg, s, run), rest)
  {
    JoinRuns(cfg, s, run, rest);
    JoinScripts(cfg, s, t, run, rest, e);
  }

  // ---- Publish ----

  /** Validation and bind mount of a lone publish. */
  lemma MountAlone(cfg: Config, s: State, t: ThreadId, r: Request, l: LibraryId, e: World) returns (run: seq<Label>)
    requires t in s.threads && s.threads[t] == Publishing(r, Validate(l)) && l in s.store && e.validates
    ensures IsRun(cfg, s, run) && Scripted(cfg, s, run, t, e)
    ensures Exec(cfg, s, run) ==
            s.(mounts := if r.volume in s.mounts then s.mounts else s.mounts[r.volume := l],
               threads := s.threads[t := Finished])
  {
    var s1 := Next(cfg, s, Run(t, ChoiceFor(s.threads[t], e)));
    assert s1 == s.(threads := s.threads[t := Publishing(r, Mount(l))]);
    ConsScript(cfg, s1, t, [], e);
    var mount := [Run(t, ChoiceFor(s1.threads[t], e))] + [];
    ConsScript(cfg, s, t, mount, e);
    run := [Run(t, ChoiceFor(s.threads[t], e))] + mount;
  }

  /** The publish up to the return of `GetLibraryForVolume`. */
  lemma PublishReturns(cfg: Config, s: State, t: ThreadId, r: Request, e: World) returns (run: seq<Label>)
    requires Resting(cfg, s) && t !in s.threads && r.volume != "" && r.package != ""
    ensures var s1 := Next(cfg, s, Start(t, Publish(r)));
            && Inv(cfg, s1) && IsRun(cfg, s1, run) && Scripted(cfg, s1, run, t, e)
    ensures var z := Exec(cfg, Next(cfg, s, Start(t, Publish(r))), run);
            var p := M.Publish(M.World(s.db, s.store, NoGauges()), r.volume, r.package, e.resolved, e.download, e.now);
            && StillAlone(cfg, s, z, t) && z.queue == s.queue && z.db == p.w.db && z.store == p.w.store
            && z.threads[t] == if p.library.Some? then Publishing(r, Validate(p.library.value)) else Finished
  {
    var start := Start(t, Publish(r));
    NextKeepsInv(cfg, s, start);
    run := PublishAloneIsSequential(cfg, Next(cfg, s, start), t, r, e);
  }

  /** A publish that finds or downloads its library, and whose source path is valid,
      ends with its volume linked to that library, the library stored, and the volume
      mounted on it, unless something was mounted there before, which stays. */
  lemma PublishMounts(cfg: Config, s: State, t: ThreadId, r: Request, e: World) returns (run: seq<Label>)
    requires Resting(cfg, s) && t !in s.threads && r.volume != "" && r.package != "" && e.validates
    requires M.Publish(M.World(s.db, s.store, NoGauges()), r.volume, r.package, e.resolved, e.download, e.now).library.Some?
    ensures Completes(cfg, s, Start(t, Publish(r)), run, t, e)
    ensures var z := Exec(cfg, s, run);
            var p := M.Publish(M.World(s.db, s.store, NoGauges()), r.volume, r.package, e.resolved, e.download, e.now);
            var l := p.library.value;
            && z.db == p.w.db && z.store == p.w.store
            && Link(z.db, r.volume) == Some(l) && l in z.store
            && z.mounts == if r.volume in s.mounts then s.mounts else s.mounts[r.volume := l]
  {
    var s1 := Next(cfg, s, Start(t, Publish(r)));
    var first := PublishReturns(cfg, s, t, r, e);
    M.PublishLinksAndStores(M.World(s.db, s.store, NoGauges()), r.volume, r.package, e.resolved, e.download, e.now);
    var z := Exec(cfg, s1, first);
    var last := MountAlone(cfg, z, t, r, z.threads[t].p.l, e);
    JoinScriptedRuns(cfg, s1, first, last, t, e);
    CompletesAfter(cfg, s, Start(t, Publish(r)), first + last, t, e);
    run := [Start(t, Publish(r))] + (first + last);
  }

  /** A publish that gets no library ends with everything as it was. */
  lemma FailedPublishLeavesNothing(cfg: Config, s: State, t: ThreadId, r: Request, e: World) returns (run: seq<Label>)
    requires Resting(cfg, s) && t !in s.threads && r.volume != "" && r.package != ""
    requires M.Publish(M.World(s.db, s.store, NoGauges()), r.volume, r.package, e.resolved, e.download, e.now).library.None?
    ensures Completes(cfg, s, Start(t, Publish(r)), run, t, e)
    ensures var z := Exec(cfg, s, run); z.db == s.db && z.store == s.store && z.mounts == s.mounts
  {
    var first := PublishReturns(cfg, s, t, r, e);
    M.PublishSucceedsIff(M.World(s.db, s.store, NoGauges()), r.volume, r.package, e.resolved, e.download, e.now);
    CompletesAfter(cfg, s, Start(t, Publish(r)), first, t, e);
    run := [Start(t, Publish(r))] + first;
  }

  // ---- Removal ----

  /** A cleanup of the library has been done or is queued, as the strategy says. */
  ghost predicate CleanedOrQueued(cfg: Config, s: State, z: State, db: Db, l: LibraryId) {
    if cfg.immediate || s.queue.stopped
    then z.queue == s.queue && (l in z.store <==> LinkedTo(db, l) != {})
    else !z.queue.stopped && l in z.queue.pending && z.queue.pending[l] in z.queue.armed && l in z.store
  }

  /** What a removal with nothing else in flight comes to, for a linked volume. */
  ghost predicate RemovalDone(cfg: Config, s: State, z: State, v: VolumeId)
    requires v in s.db.volumes
  {
    var l := s.db.volumes[v].libraryId;
    && z.db.volumes == s.db.volumes - {v}
    && (forall m :: VolumeCount(z.db, m) == VolumeCount(s.db, m) - (if m == l then 1 else 0))
    && (l in s.store ==> CleanedOrQueued(cfg, s, z, z.db, l))
    && (forall m | m != l :: m in z.store <==> m in s.store)
  }

  lemma SameLinksSameCounts(a: Db, b: Db)
    requires Consistent(a) && Consistent(b) && a.volumes == b.volumes
    ensures forall m :: VolumeCount(a, m) == VolumeCount(b, m) && LinkedTo(a, m) == LinkedTo(b, m)
  {
    forall m ensures VolumeCount(a, m) == VolumeCount(b, m) && LinkedTo(a, m) == LinkedTo(b, m) {
      assert VolumeCount(a, m) == |LinkedTo(a, m)| && VolumeCount(b, m) == |LinkedTo(b, m)|;
      assert LinkedTo(a, m) == LinkedTo(b, m);
    }
  }

  /** The counters after an unlink and the cleanup of its library. */
  lemma CountsAfterCleanup(db: Db, store: map<LibraryId, Content>, v: VolumeId)
    requires Consistent(db) && v != "" && v in db.volumes
    ensures var l := db.volumes[v].libraryId;
            var w := M.Remove(M.World(db, store, NoGauges()), v).w;
            var cleaned := M.Cleanup(w, l);
            && Consistent(w.db) && w.db.volumes == cleaned.db.volumes == db.volumes - {v}
            && (forall m :: VolumeCount(w.db, m) == VolumeCount(cleaned.db, m) == VolumeCount(db, m) - (if m == l then 1 else 0))
  {
    var l := db.volumes[v].libraryId;
    var w := M.Remove(M.World(db, store, NoGauges()), v).w;
    UnlinkVolumeKeeps(db, v);
    forall m ensures VolumeCount(w.db, m) == VolumeCount(db, m) - (if m == l then 1 else 0) {
      assert VolumeCount(db, m) == |LinkedTo(db, m)| && VolumeCount(w.db, m) == |LinkedTo(w.db, m)|;
      assert m != l ==> LinkedTo(w.db, m) == LinkedTo(db, m);
    }
    assert VolumeCount(w.db, l) == |LinkedTo(w.db, l)|;
  }

  /** `RemoveVolume` with nothing else in flight. */
  lemma RemovalAlone(cfg: Config, s: State, t: ThreadId, v: VolumeId, e: World) returns (run: seq<Label>)
    requires Inv(cfg, s) && !s.closed && Alone(s, t) && s.threads[t] == Removing(v, RemoveLock) && v in s.db.volumes
    ensures IsRun(cfg, s, run) && Scripted(cfg, s, run, t, e)
    ensures var z := Exec(cfg, s, run); StillAlone(cfg, s, z, t) && z.threads[t] == Finished && RemovalDone(cfg, s, z, v)
  {
    assert Knows(cfg, s, s.threads[t]);
    var l := s.db.volumes[v].libraryId;
    var removed := M.Remove(M.World(s.db, s.store, NoGauges()), v);
    CountsAfterCleanup(s.db, s.store, v);
    M.RemoveTakesLink(M.World(s.db, s.store, NoGauges()), v);
    M.CleanupRemovesIffUnlinked(removed.w, l);
    run := RemoveAloneIsSequential(cfg, s, t, v, e);
    var z := Exec(cfg, s, run);
    assert LinkedTo(z.db, l) == LinkedTo(removed.w.db, l);
  }

  /** The failed validation of a lone publish, and the rollback. */
  lemma RollbackAlone(cfg: Config, s: State, t: ThreadId, r: Request, l: LibraryId, e: World) returns (run: seq<Label>)
    requires Inv(cfg, s) && !s.closed && Alone(s, t) && s.threads[t] == Publishing(r, Validate(l))
    requires r.volume in s.db.volumes && !e.validates && !(cfg.revalidates && r.volume in s.mounts)
    ensures IsRun(cfg, s, run) && Scripted(cfg, s, run, t, e)
    ensures var z := Exec(cfg, s, run);
            StillAlone(cfg, s, z, t) && z.threads[t] == Finished && RemovalDone(cfg, s, z, r.volume)
  {
    var step := Run(t, ChoiceFor(s.threads[t], e));
    var s1 := Next(cfg, s, step);
    RunKeepsInv(cfg, s, t, step.choice);
    assert s1 == s.(threads := s.threads[t := Removing(r.volume, RemoveLock)]);
    var rest := RemovalAlone(cfg, s1, t, r.volume, e);
    ConsScript(cfg, s, t, rest, e);
    run := [step] + rest;
  }

  /** The removal of the only link that was added leaves the links and counters of before. */
  lemma RemovalUndoesLink(cfg: Config, s: State, y: State, z: State, v: VolumeId)
    requires v !in s.db.volumes && v in y.db.volumes && y.db.volumes - {v} == s.db.volumes && y.queue == s.queue
    requires Consistent(s.db) && Consistent(z.db) && RemovalDone(cfg, y, z, v) && y.db.volumes[v].libraryId in y.store
    ensures z.db.volumes == s.db.volumes && forall m :: VolumeCount(z.db, m) == VolumeCount(s.db, m)
    ensures CleanedOrQueued(cfg, s, z, s.db, y.db.volumes[v].libraryId)
  {
    SameLinksSameCounts(s.db, z.db);
  }

  /** The library that a publish gets, if any. */
  ghost function Given(s: State, r: Request, e: World): Option<LibraryId> {
    M.Publish(M.World(s.db, s.store, NoGauges()), r.volume, r.package, e.resolved, e.download, e.now).library
  }

  /** A publish of a volume without a link, up to its validation. */
  lemma NewLinkReturns(cfg: Config, s: State, t: ThreadId, r: Request, e: World) returns (run: seq<Label>)
    requires Resting(cfg, s) && t !in s.threads && r.volume != "" && r.package != ""
    requires r.volume !in s.db.volumes && Given(s, r, e).Some?
    ensures var s1 := Next(cfg, s, Start(t, Publish(r))); IsRun(cfg, s1, run) && Scripted(cfg, s1, run, t, e)
    ensures var l, z := Given(s, r, e).value, Exec(cfg, Next(cfg, s, Start(t, Publish(r))), run);
            && StillAlone(cfg, s, z, t) && z.queue == s.queue && z.threads[t] == Publishing(r, Validate(l))
            && Link(z.db, r.volume) == Some(l) && l in z.store && z.db.volumes - {r.volume} == s.db.volumes
  {
    var w := M.World(s.db, s.store, NoGauges());
    run := PublishReturns(cfg, s, t, r, e);
    M.PublishLinksAndStores(w, r.volume, r.package, e.resolved, e.download, e.now);
    M.PublishRecords(w, r.volume, r.package, e.resolved, e.download, e.now);
  }

  /** A publish of a volume without a link, in which nothing fails but the validation,
      ends with every link and every counter as it was, the mounts untouched, and the
      library cleaned up or queued for it. */
  lemma FailedValidationRollsBack(cfg: Config, s: State, t: ThreadId, r: Request, e: World) returns (run: seq<Label>)
    requires Resting(cfg, s) && t !in s.threads && r.volume != "" && r.package != ""
    requires !e.validates && r.volume !in s.db.volumes && !(cfg.revalidates && r.volume in s.mounts)
    requires Given(s, r, e).Some?
    ensures Completes(cfg, s, Start(t, Publish(r)), run, t, e)
    ensures var z := Exec(cfg, s, run);
            && z.db.volumes == s.db.volumes && (forall m :: VolumeCount(z.db, m) == VolumeCount(s.db, m))
            && z.mounts == s.mounts && CleanedOrQueued(cfg, s, z, s.db, Given(s, r, e).value)
  {
    var s1 := Next(cfg, s, Start(t, Publish(r)));
    var first := NewLinkReturns(cfg, s, t, r, e);
    var y := Exec(cfg, s1, first);
    var last := RollbackAlone(cfg, y, t, r, Given(s, r, e).value, e);
    JoinScriptedRuns(cfg, s1, first, last, t, e);
    CompletesAfter(cfg, s, Start(t, Publish(r)), first + last, t, e);
    run := [Start(t, Publish(r))] + (first + last);
    RemovalUndoesLink(cfg, s, y, Exec(cfg, y, last), r.volume);
  }

  // ---- Unpublish ----

  /** A lone unpublish up to `RemoveVolume`. */
  lemma UnpublishUnmounts(cfg: Config, s: State, t: ThreadId, v: VolumeId, e: World) returns (run: seq<Label>)
    requires t in s.threads && s.threads[t] == Removing(v, HasVolume) && !s.closed
    requires v != "" && Link(s.db, v).UnwrapOr("") != ""
    ensures IsRun(cfg, s, run) && Scripted(cfg, s, run, t, e)
    ensures Exec(cfg, s, run) == s.(mounts := s.mounts - {v}, threads := s.threads[t := Removing(v, RemoveLock)])
  {
    var s1 := Next(cfg, s, Run(t, NOTHING_FAILS));
    assert s1 == s.(threads := s.threads[t := Removing(v, Unmount)]);
    ConsScript(cfg, s1, t, [], e);
    var unmount := [Run(t, NOTHING_FAILS)] + [];
    ConsScript(cfg, s, t, unmount, e);
    run := [Run(t, NOTHING_FAILS)] + unmount;
  }

  lemma UnpublishComesToRemove(cfg: Config, s: State, t: ThreadId, v: VolumeId, e: World) returns (run: seq<Label>)
    requires Resting(cfg, s) && t !in s.threads && v != "" && v in s.db.volumes
    ensures var s1 := Next(cfg, s, Start(t, Unpublish(v)));
            && IsRun(cfg, s1, run) && Scripted(cfg, s1, run, t, e) && Inv(cfg, Exec(cfg, s1, run))
            && Exec(cfg, s1, run) == s.(mounts := s.mounts - {v}, threads := s.threads[t := Removing(v, RemoveLock)])
  {
    var s1 := Next(cfg, s, Start(t, Unpublish(v)));
    NextKeepsInv(cfg, s, Start(t, Unpublish(v)));
    run := UnpublishUnmounts(cfg, s1, t, v, e);
    RunKeepsAll(cfg, s1, run);
  }

  /** An unpublish of a linked volume, in which nothing fails, ends with the volume
      unlinked and unmounted, its library cleaned up or queued for it, and no other
      link, counter, directory or mount changed. */
  lemma UnpublishRemoves(cfg: Config, s: State, t: ThreadId, v: VolumeId, e: World) returns (run: seq<Label>)
    requires Resting(cfg, s) && t !in s.threads && v != "" && v in s.db.volumes
    ensures Completes(cfg, s, Start(t, Unpublish(v)), run, t, e)
    ensures var z := Exec(cfg, s, run); RemovalDone(cfg, s, z, v) && z.mounts == s.mounts - {v}
  {
    var start := Start(t, Unpublish(v));
    var s1 := Next(cfg, s, start);
    var first := UnpublishComesToRemove(cfg, s, t, v, e);
    var y := Exec(cfg, s1, first);
    var last := RemovalAlone(cfg, y, t, v, e);
    JoinScriptedRuns(cfg, s1, first, last, t, e);
    CompletesAfter(cfg, s, start, first + last, t, e);
    run := [start] + (first + last);
  }

  /** An unpublish of a volume that is not linked changes nothing. */
  lemma UnpublishIgnoresOthers(cfg: Config, s: State, t: ThreadId, v: VolumeId, e: World) returns (run: seq<Label>)
    requires Resting(cfg, s) && t !in s.threads && (v == "" || v !in s.db.volumes)
    ensures Completes(cfg, s, Start(t, Unpublish(v)), run, t, e)
    ensures Exec(cfg, s, run) == s.(threads := s.threads[t := Finished])
  {
    var start := Start(t, Unpublish(v));
    var s1 := Next(cfg, s, start);
    ConsScript(cfg, s1, t, [], e);
    CompletesAfter(cfg, s, start, [Run(t, NOTHING_FAILS)] + [], t, e);
    run := [start] + ([Run(t, NOTHING_FAILS)] + []);
  }

  // ---- Timers ----

  /** What a cleanup takes away: the library, if nothing links to it. */
  function Unused(db: Db, ls: set<LibraryId>): set<LibraryId> {
    set l | l in ls && l != "" && LinkedTo(db, l) == {}
  }

  /** The directories and records of the unused libraries are gone, and nothing else. */
  ghost predicate Swept(s: State, z: State, ls: set<LibraryId>) {
    && z.store == s.store - Unused(s.db, ls)
    && z.db == s.db.(libraries := s.db.libraries - Unused(s.db, ls))
  }

  lemma CleanupSweeps(db: Db, store: map<LibraryId, Content>, l: LibraryId)
    requires Consistent(db)
    ensures var w := M.Cleanup(M.World(db, store, NoGauges()), l);
            w.db == db.(libraries := db.libraries - Unused(db, {l})) && w.store == store - Unused(db, {l})
  {
    assert VolumeCount(db, l) == |LinkedTo(db, l)|;
    if l == "" || LinkedTo(db, l) != {} {
      assert Unused(db, {l}) == {};
    } else {
      assert Unused(db, {l}) == {l};
    }
  }

  lemma CallbackAlone(cfg: Config, s: State, t: ThreadId, l: LibraryId, e: World) returns (run: seq<Label>)
    requires Inv(cfg, s) && !s.closed && Alone(s, t) && s.threads[t] == Firing(l, TimerLock)
    ensures IsRun(cfg, s, run) && Scripted(cfg, s, run, t, e)
    ensures var z := Exec(cfg, s, run);
            && StillAlone(cfg, s, z, t) && z.threads[t] == Finished
            && z.queue == s.queue.(pending := s.queue.pending - {l})
            && (if l in s.queue.pending then Swept(s, z, {l}) else z.db == s.db && z.store == s.store)
  {
    CleanupSweeps(s.db, s.store, l);
    if l !in s.queue.pending {
      assert s.queue.pending - {l} == s.queue.pending;
    }
    run := RemoveGoesOnAlone(cfg, s, t, e);
  }

  /** A timer that goes off takes its library's entry, if there is one, and cleans the
      library up; without an entry it changes nothing. */
  lemma TimerCleans(cfg: Config, s: State, t: ThreadId, i: S.TimerId, e: World) returns (run: seq<Label>)
    requires Resting(cfg, s) && t !in s.threads && i in s.queue.armed
    ensures Completes(cfg, s, FireTimer(i, t), run, t, e)
    ensures var z, l := Exec(cfg, s, run), s.queue.armed[i];
            && z.mounts == s.mounts
            && z.queue == s.queue.(pending := s.queue.pending - {l}, armed := s.queue.armed - {i})
            && (if l in s.queue.pending then Swept(s, z, {l}) else z.db == s.db && z.store == s.store)
  {
    var start := FireTimer(i, t);
    var s1 := Next(cfg, s, start);
    NextKeepsInv(cfg, s, start);
    var rest := CallbackAlone(cfg, s1, t, s.queue.armed[i], e);
    CompletesAfter(cfg, s, start, rest, t, e);
    run := [start] + rest;
  }

  // ---- Stop ----

  /** The run is nothing but successful steps of one thread. */
  ghost predicate OwnSteps(run: seq<Label>, t: ThreadId) {
    forall e | e in run :: e.Run? && e.t == t && !e.choice.fail && !e.choice.silent
  }

  /** What is left of a stop's list, the library it is busy with included. */
  ghost function Left(pc: Pc): set<LibraryId> {
    match pc
    case Stopping(StopLoop(todo)) => todo
    case Cleaning(l, c, ToStop(rest)) => if c.CleanUnlock? || c.CleanRecord? then rest else {l} + rest
    case _ => {}
  }

  predicate InLoop(pc: Pc) {
    (pc.Stopping? && pc.h.StopLoop?) || (pc.Cleaning? && pc.k.ToStop?)
  }

  /** The end of the loop, seen from any point of it. */
  ghost predicate SweepsOn(s: State, z: State, pc: Pc) {
    && z.store == s.store - Unused(s.db, Left(pc))
    && z.db.volumes == s.db.volumes
    && z.db.libraries == s.db.libraries - Unused(s.db, Left(pc)) -
         (if pc.Cleaning? && pc.c.CleanRecord? then {pc.library} else {})
  }

  function StopChoice(l: LibraryId): Choice {
    NOTHING_FAILS.(library := l)
  }

  lemma UnusedOneMore(db: Db, l: LibraryId, rest: set<LibraryId>)
    ensures Unused(db, {l} + rest) == Unused(db, rest) + (if l != "" && LinkedTo(db, l) == {} then {l} else {})
  {
  }

  lemma UnusedAfterRemoval(db: Db, ls: set<LibraryId>, l: LibraryId)
    ensures Unused(db.(libraries := db.libraries - {l}), ls) == Unused(db, ls)
  {
    assert forall m :: LinkedTo(db.(libraries := db.libraries - {l}), m) == LinkedTo(db, m);
  }

  /** Reading the counter does not change what the loop will take away. */
  lemma ReadKeepsLeft(s: State, l: LibraryId, rest: set<LibraryId>, c: Choice)
    requires Consistent(s.db) && !c.fail
    ensures var pc' := CleanNext(s, l, CleanRead, ToStop(rest), c);
            && Unused(s.db, Left(Cleaning(l, CleanRead, ToStop(rest)))) == Unused(s.db, Left(pc'))
            && !(pc'.Cleaning? && pc'.c.CleanRecord?)
  {
    assert VolumeCount(s.db, l) == |LinkedTo(s.db, l)|;
    UnusedOneMore(s.db, l, rest);
  }

  lemma ReadSweepsOn(cfg: Config, s: State, t: ThreadId, c: Choice, z: State)
    requires Inv(cfg, s) && t in s.threads && s.threads[t].Cleaning? && s.threads[t].k.ToStop? && !c.fail
    requires s.threads[t].c.CleanRead?
    requires var s' := ThreadStep(cfg, s, t, c); SweepsOn(s', z, s'.threads[t])
    ensures SweepsOn(s, z, s.threads[t])
  {
    var pc := s.threads[t];
    var pc' := PcAfter(cfg, s, pc, c);
    ReadKeepsLeft(s, pc.library, pc.k.rest, c);
    assert pc' == CleanNext(s, pc.library, CleanRead, pc.k, c);
  }

  lemma RemovalSweepsOn(cfg: Config, s: State, t: ThreadId, c: Choice, z: State)
    requires Inv(cfg, s) && t in s.threads && s.threads[t].Cleaning? && s.threads[t].k.ToStop? && !c.fail
    requires s.threads[t].c.CleanStore?
    requires var s' := ThreadStep(cfg, s, t, c); SweepsOn(s', z, s'.threads[t])
    ensures SweepsOn(s, z, s.threads[t])
  {
    var pc := s.threads[t];
    assert Knows(cfg, s, pc);
    UnusedOneMore(s.db, pc.library, pc.k.rest);
    assert s.store - Unused(s.db, {pc.library} + pc.k.rest) == s.store - {pc.library} - Unused(s.db, pc.k.rest);
    assert pc.library !in s.store ==> s.store - {pc.library} == s.store;
  }

  lemma RecordSweepsOn(cfg: Config, s: State, t: ThreadId, c: Choice, z: State)
    requires Inv(cfg, s) && t in s.threads && s.threads[t].Cleaning? && s.threads[t].k.ToStop? && !c.fail
    requires s.threads[t].c.CleanRecord?
    requires var s' := ThreadStep(cfg, s, t, c); SweepsOn(s', z, s'.threads[t])
    ensures SweepsOn(s, z, s.threads[t])
  {
    var pc := s.threads[t];
    assert Knows(cfg, s, pc);
    UnusedAfterRemoval(s.db, pc.k.rest, pc.library);
    var libraries := s.db.libraries;
    assert libraries - {pc.library} - Unused(s.db, pc.k.rest) == libraries - Unused(s.db, pc.k.rest) - {pc.library};
  }

  /** A step of a cleanup inside the loop has the end of the loop as it was. */
  lemma CleaningSweepsOn(cfg: Config, s: State, t: ThreadId, c: Choice, z: State)
    requires Inv(cfg, s) && t in s.threads && s.threads[t].Cleaning? && s.threads[t].k.ToStop? && !c.fail
    requires var s' := ThreadStep(cfg, s, t, c); SweepsOn(s', z, s'.threads[t])
    ensures SweepsOn(s, z, s.threads[t])
  {
    match s.threads[t].c
    case CleanRead => ReadSweepsOn(cfg, s, t, c, z);
    case CleanStore => RemovalSweepsOn(cfg, s, t, c, z);
    case CleanRecord => RecordSweepsOn(cfg, s, t, c, z);
    case _ =>
  }

  lemma LoopTakes(cfg: Config, s: State, t: ThreadId, c: Choice, z: State)
    requires t in s.threads && s.threads[t].Stopping? && s.threads[t].h.StopLoop? && c.library in s.threads[t].h.todo
    requires var s' := ThreadStep(cfg, s, t, c); SweepsOn(s', z, s'.threads[t])
    ensures SweepsOn(s, z, s.threads[t])
  {
    var todo := s.threads[t].h.todo;
    assert {c.library} + (todo - {c.library}) == todo;
  }

  lemma LoopStays(cfg: Config, s: State, t: ThreadId, c: Choice)
    requires t in s.threads && InLoop(s.threads[t]) && s.threads[t] != Stopping(StopLoop({})) && !s.closed
    ensures var s' := ThreadStep(cfg, s, t, c);
            InLoop(s'.threads[t]) && !s'.closed && s'.mounts == s.mounts && s'.threads == s.threads[t := s'.threads[t]]
  {
  }

  /** One successful step inside the loop. */
  lemma LoopMovesOn(cfg: Config, s: State, t: ThreadId, c: Choice)
    requires Inv(cfg, s) && Alone(s, t) && InLoop(s.threads[t]) && !c.fail && !c.silent && !s.closed
    requires s.threads[t] != Stopping(StopLoop({}))
    requires s.threads[t].Stopping? ==> c.library in s.threads[t].h.todo
    ensures CanRun(cfg, s, t, c)
    ensures var s' := ThreadStep(cfg, s, t, c);
            && Inv(cfg, s') && Alone(s', t) && InLoop(s'.threads[t]) && !s'.closed && s'.mounts == s.mounts
            && Weight(s'.threads[t]) + QueueWeight(s'.queue) < Weight(s.threads[t]) + QueueWeight(s.queue)
  {
    if Wants(s.threads[t]).Some? {
      AloneNeverWaits(s, t);
    }
    RunKeepsInv(cfg, s, t, c);
    LoopStays(cfg, s, t, c);
    StepWeight(cfg, s, t, c);
  }

  /** The loop of a lone stop, from any point of it to its end. */
  lemma {:induction false} LoopAlone(cfg: Config, s: State, t: ThreadId) returns (run: seq<Label>)
    requires Inv(cfg, s) && Alone(s, t) && !s.closed && InLoop(s.threads[t])
    ensures IsRun(cfg, s, run) && OwnSteps(run, t)
    ensures var z := Exec(cfg, s, run);
            && Inv(cfg, z) && Alone(z, t) && !z.closed && z.mounts == s.mounts
            && z.threads[t] == Stopping(StopLoop({})) && SweepsOn(s, z, s.threads[t])
    decreases Weight(s.threads[t]) + QueueWeight(s.queue)
  {
    var pc := s.threads[t];
    if pc == Stopping(StopLoop({})) {
      run := [];
      assert Unused(s.db, {}) == {};
    } else {
      var l := "";
      if pc.Stopping? {
        l :| l in pc.h.todo;
      }
      var c := StopChoice(l);
      LoopMovesOn(cfg, s, t, c);
      var s' := Next(cfg, s, Run(t, c));
      var rest := LoopAlone(cfg, s', t);
      ConsRun(cfg, s, Run(t, c), rest);
      run := [Run(t, c)] + rest;
      if pc.Stopping? {
        LoopTakes(cfg, s, t, c, Exec(cfg, s', rest));
      } else {
        CleaningSweepsOn(cfg, s, t, c, Exec(cfg, s', rest));
      }
    }
  }

  /** The steps of a stop before its loop. */
  lemma StopEnters(cfg: Config, s: State, t: ThreadId) returns (run: seq<Label>)
    requires t in s.threads && s.threads[t] == Stopping(StopLock) && SchedulerMutex !in s.locks
    ensures IsRun(cfg, s, run) && OwnSteps(run, t)
    ensures Exec(cfg, s, run) ==
            s.(locks := s.locks[SchedulerMutex := t], queue := S.Halt(s.queue),
               threads := s.threads[t := Stopping(if s.queue.stopped then StopUnlock else StopLoop(s.queue.pending.Keys))])
  {
    var step := Run(t, NOTHING_FAILS);
    var s1 := Next(cfg, s, step);
    assert s1 == s.(locks := s.locks[SchedulerMutex := t], threads := s.threads[t := Stopping(StopBegin)]);
    ConsRun(cfg, s1, step, []);
    ConsRun(cfg, s, step, [step]);
    run := [step] + [step];
  }

  /** The steps of a stop after its loop. */
  lemma StopLeaves(cfg: Config, s: State, t: ThreadId) returns (run: seq<Label>)
    requires t in s.threads && s.threads[t] == Stopping(StopUnlock)
    ensures IsRun(cfg, s, run) && OwnSteps(run, t)
    ensures Exec(cfg, s, run) ==
            s.(locks := s.locks - {SchedulerMutex}, closed := true, threads := s.threads[t := Finished])
  {
    var step := Run(t, NOTHING_FAILS);
    var s1 := Next(cfg, s, step);
    assert s1 == s.(locks := s.locks - {SchedulerMutex}, threads := s.threads[t := Stopping(StopClose)]);
    ConsRun(cfg, s1, step, []);
    ConsRun(cfg, s, step, [step]);
    run := [step] + [step];
  }

  /** The end of the loop, and the steps after it. */
  lemma StopEnds(cfg: Config, s: State, t: ThreadId) returns (run: seq<Label>)
    requires t in s.threads && s.threads[t] == Stopping(StopLoop({}))
    ensures IsRun(cfg, s, run) && OwnSteps(run, t)
    ensures Exec(cfg, s, run) ==
            s.(locks := s.locks - {SchedulerMutex}, queue := S.Clear(s.queue), closed := true,
               threads := s.threads[t := Finished])
  {
    var step := Run(t, NOTHING_FAILS);
    var s1 := Next(cfg, s, step);
    assert s1 == s.(queue := S.Clear(s.queue), threads := s.threads[t := Stopping(StopUnlock)]);
    var rest := StopLeaves(cfg, s1, t);
    ConsRun(cfg, s, step, rest);
    run := [step] + rest;
  }

  lemma LoopAndEnd(cfg: Config, s: State, t: ThreadId) returns (run: seq<Label>)
    requires Inv(cfg, s) && Alone(s, t) && !s.closed && s.threads[t].Stopping? && s.threads[t].h.StopLoop?
    ensures IsRun(cfg, s, run) && OwnSteps(run, t)
    ensures var z := Exec(cfg, s, run);
            && t in z.threads && z.threads[t] == Finished && z.closed && z.mounts == s.mounts
            && z.queue.stopped && z.queue.pending == map[] && Swept(s, z, s.threads[t].h.todo)
  {
    var loop := LoopAlone(cfg, s, t);
    var s2 := Exec(cfg, s, loop);
    assert Knows(cfg, s2, s2.threads[t]);
    var last := StopEnds(cfg, s2, t);
    JoinRuns(cfg, s, loop, last);
    run := loop + last;
  }

  /** A stop of a strategy that has stopped before. */
  lemma SecondStop(cfg: Config, s: State, t: ThreadId) returns (run: seq<Label>)
    requires Inv(cfg, s) && Alone(s, t) && s.threads[t] == Stopping(StopLock) && s.queue.stopped
    ensures IsRun(cfg, s, run) && OwnSteps(run, t)
    ensures var z := Exec(cfg, s, run);
            && t in z.threads && z.threads[t] == Finished && z.closed && z.mounts == s.mounts
            && z.db == s.db && z.store == s.store && z.queue == s.queue
  {
    AloneNeverWaits(s, t);
    var first := StopEnters(cfg, s, t);
    var last := StopLeaves(cfg, Exec(cfg, s, first), t);
    JoinRuns(cfg, s, first, last);
    run := first + last;
  }

  /** The whole of a stop after its start, on a running strategy. */
  lemma StopAlone(cfg: Config, s: State, t: ThreadId) returns (run: seq<Label>)
    requires Inv(cfg, s) && Alone(s, t) && !s.closed && s.threads[t] == Stopping(StopLock) && !s.queue.stopped
    ensures IsRun(cfg, s, run) && OwnSteps(run, t)
    ensures var z := Exec(cfg, s, run);
            && t in z.threads && z.threads[t] == Finished && z.closed && z.mounts == s.mounts
            && z.queue.stopped && z.queue.pending == map[] && Swept(s, z, s.queue.pending.Keys)
  {
    AloneNeverWaits(s, t);
    var first := StopEnters(cfg, s, t);
    RunKeepsAll(cfg, s, first);
    var rest := LoopAndEnd(cfg, Exec(cfg, s, first), t);
    JoinRuns(cfg, s, first, rest);
    run := first + rest;
  }

  /** What a stop comes to: the database is closed and, unless the strategy is immediate
      or had been stopped before, the strategy is stopped with nothing pending, and every
      library that was pending is gone if nothing links to it.  Nothing else changes. */
  lemma StopSweeps(cfg: Config, s: State, t: ThreadId) returns (run: seq<Label>)
    requires Resting(cfg, s) && t !in s.threads
    ensures run != [] && run[0] == Start(t, Stop) && IsRun(cfg, s, run) && OwnSteps(run[1..], t)
    ensures var z := Exec(cfg, s, run);
            && t in z.threads && z.threads[t] == Finished && z.closed && z.mounts == s.mounts
            && (if cfg.immediate || s.queue.stopped
                then z.db == s.db && z.store == s.store && z.queue == s.queue
                else z.queue.stopped && z.queue.pending == map[] && Swept(s, z, s.queue.pending.Keys))
  {
    var start := Start(t, Stop);
    var s1 := Next(cfg, s, start);
    NextKeepsInv(cfg, s, start);
    var rest;
    if cfg.immediate {
      ConsRun(cfg, s1, Run(t, NOTHING_FAILS), []);
      rest := [Run(t, NOTHING_FAILS)];
    } else if s.queue.stopped {
      rest := SecondStop(cfg, s1, t);
    } else {
      rest := StopAlone(cfg, s1, t);
    }
    ConsRun(cfg, s, start, rest);
    run := [start] + rest;
    assert run[1..] == rest;
  }
}
