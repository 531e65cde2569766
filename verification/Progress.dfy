/** The protocol never deadlocks, and every finite set of calls finishes. */
module Progress {
  import opened Options
  import opened Records
  import opened Protocol
  import opened Safety
  import S = Scheduler

  // ---- Lock order ----

  /** Locks are taken in the order volume key, scheduler mutex, library key. */
  function Rank(k: Key): nat {
    match k
    case VolumeKey(_) => 0
    case SchedulerMutex => 1
    case LibraryKey(_) => 2
  }

  /** A thread only waits for a lock that ranks above every lock it holds. */
  lemma LockOrder(pc: Pc, k: Key)
    requires Wants(pc).Some? && k in Holds(pc)
    ensures Rank(k) < Rank(Wants(pc).value)
  {
  }

  /** A choice that every environment allows. */
  ghost function SomeChoice(s: State, pc: Pc): Choice {
    var pick :=
      if pc.Stopping? && pc.h.StopLoop? && pc.h.todo != {} then (var l :| l in pc.h.todo; l) else "";
    Choice(Refused(s, pc), false, pick, [], 0, 0)
  }

  ghost predicate Ready(cfg: Config, s: State, t: ThreadId) {
    t in s.threads && CanRun(cfg, s, t, SomeChoice(s, s.threads[t]))
  }

  /** From a thread that has not finished, follow the locks waited for to a thread
      that can take a step.  The chain has at most three links. */
  lemma {:induction false} FindReady(cfg: Config, s: State, t: ThreadId) returns (u: ThreadId)
    requires LocksMatch(s) && t in s.threads && s.threads[t] != Finished
    ensures Ready(cfg, s, u)
    decreases if Wants(s.threads[t]).Some? then 3 - Rank(Wants(s.threads[t]).value) else 0
  {
    var pc := s.threads[t];
    if Wants(pc).Some? && Wants(pc).value in s.locks {
      var k := Wants(pc).value;
      var holder := s.locks[k];
      assert k in Held(s.threads)[holder];
      if Wants(s.threads[holder]).Some? {
        LockOrder(s.threads[holder], k);
      }
      u := FindReady(cfg, s, holder);
    } else {
      u := t;
    }
  }

  /** In every reachable state, unless every thread has finished, some thread can step. */
  lemma NeverDeadlocks(cfg: Config, s: State, run: seq<Label>)
    requires Init(cfg, s) && IsRun(cfg, s, run)
    ensures var z := Exec(cfg, s, run);
            (exists t :: t in z.threads && z.threads[t] != Finished) ==>
              exists t, c :: CanRun(cfg, z, t, c)
  {
    ReachableInv(cfg, s, run);
    var z := Exec(cfg, s, run);
    if t :| t in z.threads && z.threads[t] != Finished {
      var u := FindReady(cfg, z, t);
      assert CanRun(cfg, z, u, SomeChoice(z, z.threads[u]));
    }
  }

  // ---- Every step makes progress ----

  function ReturnWeight(k: Return): nat {
    match k
    case ToRemove(_) => 1
    case ToSchedule(_) => 2
    case ToTimer => 0
    case ToStop(rest) => 3 + 7 * |rest|
  }

  /** An upper bound on the steps left to a thread, timers it may start included. */
  function Weight(pc: Pc): nat {
    match pc
    case Finished => 0
    case Publishing(_, p) => (
      match p
      case LockVolume => 33
      case ReadLink => 32
      case LockLinked(_) => 29
      case CheckLinked(_) => 28
      case Restore(_) => 27
      case Resolve => 31
      case LockResolved(_) => 30
      case CheckStore(_) => 29
      case Download(_) => 28
      case Record(_, _) => 27
      case LinkUp(_, _) => 26
      case UnlockLibrary(_, _) => 25
      case UnlockVolume(_) => 24
      case Validate(_) => 23
      case Mount(_) => 1
    )
    case Removing(_, q) => (
      match q
      case HasVolume => 24
      case Unmount => 23
      case RemoveLock => 22
      case Unlink => 21
      case ScheduleLock(_) => 20
      case ScheduleEntry(_) => 19
      case ScheduleUnlock => 2
      case RemoveUnlock => 1
    )
    case Cleaning(_, c, k) =>
      ReturnWeight(k) + (
        match c
        case CleanLock => 5
        case CleanRead => 4
        case CleanStore => 3
        case CleanRecord => 2
        case CleanUnlock => 1
      )
    case Firing(_, f) => if f.TimerLock? then 8 else if f.TimerCheck? then 7 else 6
    case Stopping(h) => (
      match h
      case StopLock => 5
      case StopBegin => 4
      case StopLoop(todo) => 3 + 7 * |todo|
      case StopUnlock => 2
      case StopClose => 1
    )
  }

  /** Each armed timer will become a callback; each pending entry may be handled
      inside `Stop` as long as nobody has stopped the strategy. */
  function QueueWeight(q: S.Queue): nat {
    9 * |q.armed| + if q.stopped then 0 else 7 * |q.pending|
  }

  ghost function Total(threads: map<ThreadId, Pc>): nat {
    if threads == map[] then 0
    else
      var t :| t in threads;
      Weight(threads[t]) + Total(threads - {t})
  }

  ghost function Measure(s: State): nat {
    Total(s.threads) + QueueWeight(s.queue)
  }

  lemma {:induction false} TotalWithout(threads: map<ThreadId, Pc>, t: ThreadId)
    requires t in threads
    ensures Total(threads) == Weight(threads[t]) + Total(threads - {t})
    decreases |threads|
  {
    var u :| u in threads && Total(threads) == Weight(threads[u]) + Total(threads - {u});
    if u == t {
    } else {
      TotalWithout(threads - {u}, t);
      TotalWithout(threads - {t}, u);
      assert threads - {u} - {t} == threads - {t} - {u};
    }
  }

  lemma TotalUpdate(threads: map<ThreadId, Pc>, t: ThreadId, pc: Pc)
    ensures Total(threads[t := pc]) == Weight(pc) + Total(threads - {t})
  {
    TotalWithout(threads[t := pc], t);
    assert threads[t := pc] - {t} == threads - {t};
  }

  lemma UpdateSize<K, V>(m: map<K, V>, k: K, v: V)
    ensures |m[k := v]| <= |m| + 1
  {
    assert m[k := v].Keys == m.Keys + {k};
  }

  lemma RemoveSize<K, V>(m: map<K, V>, k: K)
    ensures |m - {k}| == |m| - if k in m then 1 else 0
  {
    assert (m - {k}).Keys == m.Keys - {k};
  }

  lemma ScheduleWeight(q: S.Queue, l: LibraryId)
    requires !q.stopped
    ensures QueueWeight(S.Schedule(q, l)) <= QueueWeight(q) + 16
  {
    var p := S.StopTimer(q, l);
    if l in q.pending {
      RemoveSize(q.armed, q.pending[l]);
    }
    UpdateSize(p.pending, l, p.next);
    UpdateSize(p.armed, p.next, l);
  }

  lemma ConsumeWeight(q: S.Queue, l: LibraryId)
    ensures QueueWeight(S.Consume(q, l)) <= QueueWeight(q)
  {
    RemoveSize(q.pending, l);
  }

  lemma StopTimerWeight(q: S.Queue, l: LibraryId)
    ensures QueueWeight(S.StopTimer(q, l)) <= QueueWeight(q)
  {
    if l in q.pending {
      RemoveSize(q.armed, q.pending[l]);
    }
  }

  lemma PublishWeight(s: State, r: Request, p: PublishPc, c: Choice)
    ensures Weight(PublishNext(s, r, p, c)) < Weight(Publishing(r, p))
  {
  }

  lemma CleanWeight(s: State, l: LibraryId, p: CleanPc, k: Return, c: Choice)
    ensures Weight(CleanNext(s, l, p, k, c)) < Weight(Cleaning(l, p, k))
  {
  }

  lemma RemoveWeight(cfg: Config, s: State, v: VolumeId, q: RemovePc, c: Choice)
    ensures var pc := Removing(v, q);
            Weight(RemoveNext(cfg, s, v, q, c)) + QueueWeight(QueueAfter(s.queue, pc, c)) < Weight(pc) + QueueWeight(s.queue)
  {
    if q.ScheduleEntry? {
      if !s.queue.stopped {
        ScheduleWeight(s.queue, q.l);
      }
    } else {
      assert QueueAfter(s.queue, Removing(v, q), c) == s.queue;
    }
  }

  lemma TimerWeight(s: State, l: LibraryId, f: TimerPc, c: Choice)
    ensures var pc := Firing(l, f);
            Weight(TimerNext(s, l, f)) + QueueWeight(QueueAfter(s.queue, pc, c)) < Weight(pc) + QueueWeight(s.queue)
  {
    ConsumeWeight(s.queue, l);
  }

  lemma StopWeight(s: State, h: StopPc, c: Choice)
    requires h.StopLoop? && h.todo != {} ==> c.library in h.todo
    ensures var pc := Stopping(h);
            Weight(StopNext(s, h, c)) + QueueWeight(QueueAfter(s.queue, pc, c)) < Weight(pc) + QueueWeight(s.queue)
  {
    match h
    case StopBegin => assert |s.queue.pending.Keys| == |s.queue.pending|;
    case StopLoop(todo) => StopTimerWeight(s.queue, c.library);
    case _ =>
  }

  lemma StepWeight(cfg: Config, s: State, t: ThreadId, c: Choice)
    requires CanRun(cfg, s, t, c)
    ensures var pc := s.threads[t];
            Weight(PcAfter(cfg, s, pc, c)) + QueueWeight(QueueAfter(s.queue, pc, c)) < Weight(pc) + QueueWeight(s.queue)
  {
    match s.threads[t]
    case Publishing(r, p) => PublishWeight(s, r, p, c);
    case Removing(v, q) => RemoveWeight(cfg, s, v, q, c);
    case Cleaning(l, p, k) => CleanWeight(s, l, p, k, c);
    case Firing(l, f) => TimerWeight(s, l, f, c);
    case Stopping(h) => StopWeight(s, h, c);
  }

  /** Steps of calls already started, and timers going off: everything but new
      calls, crashes and outside deletions. */
  predicate Internal(e: Label) {
    e.Run? || e.FireTimer?
  }

  lemma RunDecreases(cfg: Config, s: State, t: ThreadId, c: Choice)
    requires CanRun(cfg, s, t, c)
    ensures Measure(ThreadStep(cfg, s, t, c)) < Measure(s)
  {
    var pc' := PcAfter(cfg, s, s.threads[t], c);
    StepWeight(cfg, s, t, c);
    TotalWithout(s.threads, t);
    TotalUpdate(s.threads, t, pc');
  }

  lemma FireWeight(q: S.Queue, i: S.TimerId)
    requires i in q.armed
    ensures QueueWeight(S.Fire(q, i)) + 9 == QueueWeight(q)
  {
    RemoveSize(q.armed, i);
  }

  lemma SpawnTotal(threads: map<ThreadId, Pc>, t: ThreadId, pc: Pc)
    requires t !in threads
    ensures Total(threads[t := pc]) == Weight(pc) + Total(threads)
  {
    TotalUpdate(threads, t, pc);
    assert threads - {t} == threads;
  }

  lemma FireDecreases(s: State, i: S.TimerId, t: ThreadId)
    requires i in s.queue.armed && t !in s.threads
    ensures Total(s.threads[t := Firing(s.queue.armed[i], TimerLock)]) + QueueWeight(S.Fire(s.queue, i)) < Measure(s)
  {
    FireWeight(s.queue, i);
    SpawnTotal(s.threads, t, Firing(s.queue.armed[i], TimerLock));
  }

  lemma InternalStepDecreases(cfg: Config, s: State, e: Label)
    requires Enabled(cfg, s, e) && Internal(e)
    ensures Measure(Next(cfg, s, e)) < Measure(s)
  {
    match e
    case Run(t, c) => RunDecreases(cfg, s, t, c);
    case FireTimer(i, t) => FireDecreases(s, i, t);
  }

  /** However its steps interleave, a run that starts no new call is no longer
      than the measure of the state it begins in. */
  lemma {:induction false} RunsAreBounded(cfg: Config, s: State, run: seq<Label>)
    requires IsRun(cfg, s, run) && (forall e | e in run :: Internal(e))
    ensures |run| + Measure(Exec(cfg, s, run)) <= Measure(s)
    decreases |run|
  {
    if run == [] {
    } else {
      InternalStepDecreases(cfg, s, run[0]);
      RunsAreBounded(cfg, Next(cfg, s, run[0]), run[1..]);
    }
  }

  /** Every call has returned and every timer has gone off or been stopped. */
  ghost predicate Quiescent(s: State) {
    s.queue.armed == map[] && forall t | t in s.threads :: s.threads[t] == Finished
  }

  lemma {:induction false} Bounded(ts: set<ThreadId>) returns (n: ThreadId)
    ensures forall t | t in ts :: t < n
    decreases ts
  {
    if ts == {} {
      n := 0;
    } else {
      var t :| t in ts;
      var m := Bounded(ts - {t});
      n := if t < m then m else t + 1;
      assert forall u | u in ts :: u == t || u in ts - {t};
    }
  }

  lemma FreshThread(threads: map<ThreadId, Pc>) returns (t: ThreadId)
    ensures t !in threads
  {
    t := Bounded(threads.Keys);
    assert t !in threads.Keys;
  }

  /** A state in which no internal step is possible is quiescent. */
  lemma StuckMeansQuiescent(cfg: Config, s: State)
    requires LocksMatch(s)
    requires forall e | Internal(e) :: !Enabled(cfg, s, e)
    ensures Quiescent(s)
  {
    forall t | t in s.threads ensures s.threads[t] == Finished {
      if s.threads[t] != Finished {
        var u := FindReady(cfg, s, t);
        assert Internal(Run(u, SomeChoice(s, s.threads[u])));
        assert false;
      }
    }
    if i :| i in s.queue.armed {
      var t := FreshThread(s.threads);
      assert Internal(FireTimer(i, t));
      assert false;
    }
  }

  /** From every reachable state, letting the calls in flight and the timers run
      always ends, and it ends with everything returned. */
  lemma {:induction false} Drains(cfg: Config, s: State) returns (run: seq<Label>)
    requires Inv(cfg, s)
    ensures IsRun(cfg, s, run) && (forall e | e in run :: Internal(e))
    ensures |run| <= Measure(s)
    ensures Quiescent(Exec(cfg, s, run))
    decreases Measure(s)
  {
    if e :| Internal(e) && Enabled(cfg, s, e) {
      InternalStepDecreases(cfg, s, e);
      NextKeepsInv(cfg, s, e);
      var rest := Drains(cfg, Next(cfg, s, e));
      run := [e] + rest;
      assert run[1..] == rest;
    } else {
      run := [];
      StuckMeansQuiescent(cfg, s);
    }
  }
}
