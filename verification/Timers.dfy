/** What a stop and a reschedule of the delayed strategy do to entries and timers. */
module Timers {
  import opened Records
  import opened Cleanup
  import opened EarlyStarts
  import S = Scheduler

  // ---- Stops ----

  /** One start for each entry of the map, and nothing else. */
  ghost predicate GrewByStarts(log: seq<Event>, log': seq<Event>, pending: map<LibraryId, S.TimerId>) {
    && log <= log' && |log'| == |log| + |pending|
    && (forall l | l in pending :: Started(l, pending[l]) in log'[|log|..])
    && (forall e | e in log'[|log|..] :: e.Started? && e.l in pending && e.id == pending[e.l])
  }

  lemma {:induction false} OrderSize(order: seq<LibraryId>, keys: set<LibraryId>)
    requires IsOrder(order, keys)
    ensures |order| == |keys|
    decreases |order|
  {
    if order == [] {
      assert keys == {};
    } else {
      var n := |order| - 1;
      assert order[n] in keys;
      forall l ensures l in order[..n] <==> l in keys - {order[n]} {
        if l in order && l != order[n] {
          var k :| 0 <= k < |order| && order[k] == l;
          assert order[..n][k] == l;
        }
      }
      OrderSize(order[..n], keys - {order[n]});
    }
  }

  /** The starts of the entries in the order of the loop. */
  function Starts(pending: map<LibraryId, S.TimerId>, order: seq<LibraryId>): seq<Event>
    requires forall l | l in order :: l in pending
  {
    seq(|order|, i requires 0 <= i < |order| => Started(order[i], pending[order[i]]))
  }

  lemma {:induction false} TakeAllStarts(h: History, order: seq<LibraryId>)
    requires forall l | l in order :: l in h.queue.pending
    requires forall i, j | 0 <= i < j < |order| :: order[i] != order[j]
    ensures TakeAll(h, order).log == h.log + Starts(h.queue.pending, order)
    decreases |order|
  {
    if order == [] {
    } else {
      var n := |order| - 1;
      TakeAllStarts(h, order[..n]);
      assert Starts(h.queue.pending, order) ==
             Starts(h.queue.pending, order[..n]) + [Started(order[n], h.queue.pending[order[n]])];
    }
  }

  lemma {:induction false} TakeAllStops(h: History, order: seq<LibraryId>, l: LibraryId)
    requires forall m | m in order :: m in h.queue.pending
    requires forall i, j | 0 <= i < j < |order| :: order[i] != order[j]
    requires l in order
    ensures h.queue.pending[l] !in TakeAll(h, order).queue.armed
    decreases |order|
  {
    var n := |order| - 1;
    if l == order[n] {
    } else {
      assert order == order[..n] + [order[n]];
      TakeAllStops(h, order[..n], l);
    }
  }

  lemma StartsCover(pending: map<LibraryId, S.TimerId>, order: seq<LibraryId>, log: seq<Event>)
    requires IsOrder(order, pending.Keys)
    ensures GrewByStarts(log, log + Starts(pending, order), pending)
  {
    var more := Starts(pending, order);
    OrderSize(order, pending.Keys);
    assert |pending.Keys| == |pending|;
    assert (log + more)[|log|..] == more;
    forall l | l in pending ensures Started(l, pending[l]) in more {
      var k :| 0 <= k < |order| && order[k] == l;
      assert more[k] == Started(l, pending[l]);
    }
  }

  /** What is not a start was in the log before. */
  lemma StartsAreNew(log: seq<Event>, log': seq<Event>, pending: map<LibraryId, S.TimerId>, e: Event)
    requires GrewByStarts(log, log', pending) && e in log' && !e.Started?
    ensures e in log
  {
    assert log' == log + log'[|log|..];
  }

  /** Stopped, with nothing pending: every pending cleanup was started once and its
      timer stopped, no other timer was started. */
  ghost predicate StartedAll(h: History, h': History) {
    && h'.queue.stopped && h'.queue.pending == map[]
    && h'.fired == h.fired && h'.queue.next == h.queue.next
    && GrewByStarts(h.log, h'.log, h.queue.pending)
    && (forall l | l in h.queue.pending :: h.queue.pending[l] !in h'.queue.armed)
    && (forall i | i in h'.queue.armed :: i in h.queue.armed && h'.queue.armed[i] == h.queue.armed[i])
  }

  /** A stop of a running strategy. */
  lemma StopStarts(h: History, order: seq<LibraryId>)
    requires IsOrder(order, h.queue.pending.Keys) && !h.queue.stopped
    ensures StartedAll(h, Stop(h, order))
  {
    TakeAllTimers(h.(queue := S.Halt(h.queue)), order);
    var halted := h.(queue := S.Halt(h.queue));
    TakeAllStarts(halted, order);
    StartsCover(h.queue.pending, order, h.log);
    forall l | l in h.queue.pending ensures h.queue.pending[l] !in TakeAll(halted, order).queue.armed {
      TakeAllStops(halted, order, l);
    }
    assert h.queue.pending - (set l | l in order) == map[];
  }

  /** After any run, a stop leaves a stopped strategy with nothing pending; it starts
      each pending cleanup once, stops its timer, and does nothing the second time. */
  lemma StopStartsEverything(run: seq<Op>, order: seq<LibraryId>)
    requires IsRun(INITIAL, run) && IsOrder(order, Exec(INITIAL, run).queue.pending.Keys)
    ensures var h := Exec(INITIAL, run);
            var h' := Apply(h, DoStop(order));
            && h'.queue.stopped && h'.queue.pending == map[]
            && (if h.queue.stopped then h' == h else StartedAll(h, h'))
  {
    InitialInv();
    RunKeepsInv(INITIAL, run);
    if !Exec(INITIAL, run).queue.stopped {
      StopStarts(Exec(INITIAL, run), order);
    }
  }

  /** No armed timer belongs to an entry that was replaced, and one without an entry
      belongs to an entry whose cleanup was started without it. */
  ghost predicate Booked(h: History) {
    && (forall e | e in h.log && e.Replaced? :: e.id !in h.queue.armed && e.id < h.queue.next)
    && (forall i | i in h.queue.armed :: var l := h.queue.armed[i];
          (l in h.queue.pending && h.queue.pending[l] == i) || Started(l, i) in h.log)
  }

  lemma ScheduleKeepsBooked(h: History, l: LibraryId)
    requires Timed(h) && Booked(h) && !h.queue.stopped
    ensures Booked(Schedule(h, l))
  {
    ScheduleWrites(h, l);
  }

  lemma StopKeepsBooked(h: History, order: seq<LibraryId>)
    requires Booked(h) && !h.queue.stopped && IsOrder(order, h.queue.pending.Keys)
    ensures Booked(Stop(h, order))
  {
    var h' := Stop(h, order);
    StopStarts(h, order);
    forall e | e in h'.log && e.Replaced? ensures e.id !in h'.queue.armed && e.id < h'.queue.next {
      StartsAreNew(h.log, h'.log, h.queue.pending, e);
    }
    forall i | i in h'.queue.armed ensures Started(h'.queue.armed[i], i) in h'.log {
      assert i in h.queue.armed && h.queue.armed[i] == h'.queue.armed[i];
      assert Started(h.queue.armed[i], i) in h.log;
    }
  }

  lemma ApplyKeepsBooked(h: History, op: Op)
    requires Timed(h) && Booked(h) && Enabled(h, op)
    ensures Booked(Apply(h, op))
  {
    match op
    case DoSchedule(l) =>
      if !h.queue.stopped {
        ScheduleKeepsBooked(h, l);
      }
    case DoFire(_) =>
    case DoCallback(_) =>
    case DoStop(order) =>
      if !h.queue.stopped {
        StopKeepsBooked(h, order);
      }
  }

  lemma {:induction false} RunKeepsBooked(h: History, run: seq<Op>)
    requires Timed(h) && Booked(h) && IsRun(h, run)
    ensures Booked(Exec(h, run))
    decreases |run|
  {
    if run == [] {
    } else {
      ApplyKeepsTimed(h, run[0]);
      ApplyKeepsBooked(h, run[0]);
      RunKeepsBooked(Apply(h, run[0]), run[1..]);
    }
  }

  /** A reschedule starts the delay over: in no state after it, whatever runs, is the
      timer of the entry that gave way still armed.  An armed timer is that of its
      library's pending entry, or of one that a stale callback started. */
  lemma ReplacedTimersAreStopped(run: seq<Op>, i: S.TimerId)
    requires IsRun(INITIAL, run)
    ensures var h := Exec(INITIAL, run);
            && (forall e | e in h.log && e.Replaced? :: e.id !in h.queue.armed)
            && (i in h.queue.armed ==> var l := h.queue.armed[i];
                  (l in h.queue.pending && h.queue.pending[l] == i) || Started(l, i) in h.log)
  {
    RunKeepsBooked(INITIAL, run);
  }

  // ---- Every schedule is booked, every entry can start ----

  function Schedules(run: seq<Op>, l: LibraryId): nat
    decreases |run|
  {
    if run == [] then 0 else (if run[0] == DoSchedule(l) then 1 else 0) + Schedules(run[1..], l)
  }

  lemma {:induction false} TakeAllAsksNothing(h: History, order: seq<LibraryId>, l: LibraryId)
    requires forall m | m in order :: m in h.queue.pending
    requires forall i, j | 0 <= i < j < |order| :: order[i] != order[j]
    ensures Count(TakeAll(h, order).log, Asking(l)) == Count(h.log, Asking(l))
    decreases |order|
  {
    if order == [] {
    } else {
      var n := |order| - 1;
      TakeAllAsksNothing(h, order[..n], l);
      var r := TakeAll(h, order[..n]);
      CountMore(r.log, Started(order[n], r.queue.pending[order[n]]), Asking(l));
    }
  }

  lemma ApplyAsks(h: History, op: Op, l: LibraryId)
    requires Enabled(h, op)
    ensures Count(Apply(h, op).log, Asking(l)) == Count(h.log, Asking(l)) + if op == DoSchedule(l) then 1 else 0
  {
    match op
    case DoSchedule(m) =>
      if h.queue.stopped {
        CountMore(h.log, RanAtOnce(m), Asking(l));
      } else {
        ScheduleWrites(h, m);
        var log := if m in h.queue.pending then h.log + [Replaced(m, h.queue.pending[m])] else h.log;
        if m in h.queue.pending {
          CountMore(h.log, Replaced(m, h.queue.pending[m]), Asking(l));
        }
        CountMore(log, Scheduled(m, h.queue.next), Asking(l));
      }
    case DoFire(_) =>
    case DoCallback(i) =>
      if h.fired[i] in h.queue.pending {
        CountMore(h.log, Started(h.fired[i], h.queue.pending[h.fired[i]]), Asking(l));
      }
    case DoStop(order) =>
      if !h.queue.stopped {
        TakeAllAsksNothing(h.(queue := S.Halt(h.queue)), order, l);
      }
  }

  lemma {:induction false} RunAsks(h: History, run: seq<Op>, l: LibraryId)
    requires IsRun(h, run)
    ensures Count(Exec(h, run).log, Asking(l)) == Count(h.log, Asking(l)) + Schedules(run, l)
    decreases |run|
  {
    if run == [] {
    } else {
      ApplyAsks(h, run[0], l);
      RunAsks(Apply(h, run[0]), run[1..], l);
    }
  }

  /** Over every run, each call of `ScheduleCleanup` for a library has started a
      cleanup, or given way to a later call, or is the one that is pending; with the
      strategy stopped, none is pending. */
  lemma EveryScheduleIsServed(run: seq<Op>, l: LibraryId)
    requires IsRun(INITIAL, run)
    ensures var h := Exec(INITIAL, run);
            && Schedules(run, l) ==
               Count(h.log, Running(l)) + Count(h.log, Yielding(l)) + (if l in h.queue.pending then 1 else 0)
            && (h.queue.stopped ==> l !in h.queue.pending)
  {
    RunAsks(INITIAL, run, l);
    InitialInv();
    RunKeepsInv(INITIAL, run);
    assert Balanced(Exec(INITIAL, run).queue.pending, Exec(INITIAL, run).log, l);
  }

  /** In every reachable state a pending entry is at most two events from its start:
      its timer goes off, if it has not yet, and calls back. */
  lemma PendingEntryCanStart(run: seq<Op>, l: LibraryId) returns (more: seq<Op>)
    requires IsRun(INITIAL, run) && l in Exec(INITIAL, run).queue.pending
    ensures var h := Exec(INITIAL, run);
            var id := h.queue.pending[l];
            && (more == [DoCallback(id)] || more == [DoFire(id), DoCallback(id)]) && IsRun(h, more)
            && Exec(h, more).log == h.log + [Started(l, id)] && l !in Exec(h, more).queue.pending
            && id !in Exec(h, more).queue.armed && id !in Exec(h, more).fired
  {
    RunKeepsTimed(INITIAL, run);
    var h := Exec(INITIAL, run);
    var id := h.queue.pending[l];
    assert RunsFor(h, id, l);
    if id in h.fired {
      more := [DoCallback(id)];
      var h1 := Apply(h, more[0]);
      assert IsRun(h1, more[1..]) && Exec(h1, more[1..]) == h1;
    } else {
      more := [DoFire(id), DoCallback(id)];
      var h1 := Apply(h, more[0]);
      var h2 := Apply(h1, more[1]);
      assert more[1..] == [DoCallback(id)] && more[1..][1..] == [];
      assert IsRun(h2, []) && Exec(h2, []) == h2;
      assert IsRun(h1, more[1..]) && Exec(h1, more[1..]) == h2;
    }
  }
}
