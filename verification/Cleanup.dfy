/** The delayed cleanup strategy, with the history of what was scheduled and started.

    The mutex makes each operation one critical section, so a run is a sequence of
    schedules, timers going off, timer callbacks and stops, in any order.  The
    cleanup function is the caller's; the history records that it was started.
  */
module Cleanup {
  import opened Options
  import opened Records
  import S = Scheduler

  /** Every entry of the pending map has the identity of its timer. */
  datatype Event =
    | Scheduled(l: LibraryId, id: S.TimerId)   // an entry was put into the map
    | Replaced(l: LibraryId, id: S.TimerId)    // the entry gave way to a newer one
    | Started(l: LibraryId, id: S.TimerId)     // the entry was consumed, its cleanup starts
    | RanAtOnce(l: LibraryId)                  // scheduled after the stop, cleanup starts

  /** `fired` holds the timers that went off and whose callback has not run yet. */
  datatype History = History(queue: S.Queue, fired: map<S.TimerId, LibraryId>, log: seq<Event>)

  const INITIAL := History(S.EMPTY, map[], [])

  // ---- Operations ----

  function Schedule(h: History, l: LibraryId): History {
    if h.queue.stopped then h.(log := h.log + [RanAtOnce(l)])
    else
      var replaced := if l in h.queue.pending then [Replaced(l, h.queue.pending[l])] else [];
      h.(queue := S.Schedule(h.queue, l), log := h.log + replaced + [Scheduled(l, h.queue.next)])
  }

  function Fire(h: History, i: S.TimerId): History
    requires i in h.queue.armed
  {
    h.(queue := S.Fire(h.queue, i), fired := h.fired[i := h.queue.armed[i]])
  }

  /** The callback takes whatever entry its library has by now. */
  function Callback(h: History, i: S.TimerId): History
    requires i in h.fired
  {
    var l := h.fired[i];
    var h' := h.(fired := h.fired - {i});
    if l in h.queue.pending then
      h'.(queue := S.Consume(h.queue, l), log := h.log + [Started(l, h.queue.pending[l])])
    else h'
  }

  /** One turn of the loop in `Stop`. */
  function Take(h: History, l: LibraryId): History
    requires l in h.queue.pending
  {
    h.(queue := S.Consume(S.StopTimer(h.queue, l), l), log := h.log + [Started(l, h.queue.pending[l])])
  }

  /** The entries in the order in which the loop meets them. */
  ghost predicate IsOrder(order: seq<LibraryId>, keys: set<LibraryId>) {
    && (forall l :: l in order <==> l in keys)
    && (forall i, j | 0 <= i < j < |order| :: order[i] != order[j])
  }

  function TakeAll(h: History, order: seq<LibraryId>): (r: History)
    requires forall l | l in order :: l in h.queue.pending
    requires forall i, j | 0 <= i < j < |order| :: order[i] != order[j]
    ensures r.queue.pending == h.queue.pending - (set l | l in order)
    ensures r.queue.stopped == h.queue.stopped && r.queue.next == h.queue.next && r.fired == h.fired
    decreases |order|
  {
    if order == [] then h
    else
      var n := |order| - 1;
      Take(TakeAll(h, order[..n]), order[n])
  }

  function Stop(h: History, order: seq<LibraryId>): History
    requires IsOrder(order, h.queue.pending.Keys)
  {
    if h.queue.stopped then h else TakeAll(h.(queue := S.Halt(h.queue)), order)
  }

  lemma {:induction false} AnyOrder(keys: set<LibraryId>) returns (order: seq<LibraryId>)
    ensures IsOrder(order, keys)
    decreases keys
  {
    if keys == {} {
      order := [];
    } else {
      var l :| l in keys;
      var rest := AnyOrder(keys - {l});
      order := rest + [l];
    }
  }

  // ---- Counting events ----

  datatype Kind =
    | Opening(id: S.TimerId)    // the entry was put into the map
    | Ending(id: S.TimerId)     // the entry left the map
    | Asking(l: LibraryId)      // a cleanup of the library was scheduled
    | Running(l: LibraryId)     // a cleanup of the library was started
    | Yielding(l: LibraryId)    // an entry of the library was replaced

  predicate Is(e: Event, k: Kind) {
    match k
    case Opening(id) => e.Scheduled? && e.id == id
    case Ending(id) => (e.Replaced? || e.Started?) && e.id == id
    case Asking(l) => (e.Scheduled? || e.RanAtOnce?) && e.l == l
    case Running(l) => (e.Started? || e.RanAtOnce?) && e.l == l
    case Yielding(l) => e.Replaced? && e.l == l
  }

  function Count(log: seq<Event>, k: Kind): nat
    decreases |log|
  {
    if log == [] then 0
    else Count(log[..|log| - 1], k) + if Is(log[|log| - 1], k) then 1 else 0
  }

  lemma CountMore(log: seq<Event>, e: Event, k: Kind)
    ensures Count(log + [e], k) == Count(log, k) + if Is(e, k) then 1 else 0
  {
    assert (log + [e])[..|log|] == log;
  }

  // ---- The books balance ----

  /** Every cleanup asked for was started, gave way to a newer request, or is pending. */
  ghost predicate Balanced(pending: map<LibraryId, S.TimerId>, log: seq<Event>, l: LibraryId) {
    Count(log, Asking(l)) == Count(log, Running(l)) + Count(log, Yielding(l)) + if l in pending then 1 else 0
  }

  /** An entry is put into the map once, and leaves it at most once. */
  ghost predicate Accounted(pending: map<LibraryId, S.TimerId>, next: S.TimerId, log: seq<Event>, id: S.TimerId) {
    && Count(log, Opening(id)) == (if id < next then 1 else 0)
    && Count(log, Opening(id)) == Count(log, Ending(id)) + if id in pending.Values then 1 else 0
  }

  ghost predicate Ledger(pending: map<LibraryId, S.TimerId>, next: S.TimerId, log: seq<Event>) {
    && (forall l | l in pending :: pending[l] < next)
    && (forall l, m | l in pending && m in pending && pending[l] == pending[m] :: l == m)
    && (forall l :: Balanced(pending, log, l))
    && (forall id: S.TimerId :: Accounted(pending, next, log, id))
  }

  ghost predicate StartedAfter(log: seq<Event>, i: nat, l: LibraryId) {
    exists j :: i < j < |log| && Is(log[j], Running(l))
  }

  /** Every schedule is still pending or was followed by a start. */
  ghost predicate Followed(pending: map<LibraryId, S.TimerId>, log: seq<Event>) {
    forall i | 0 <= i < |log| && log[i].Scheduled? :: log[i].l in pending || StartedAfter(log, i, log[i].l)
  }

  lemma ValuesWithout(pending: map<LibraryId, S.TimerId>, l: LibraryId, id: S.TimerId)
    requires l in pending
    requires forall m, n | m in pending && n in pending && pending[m] == pending[n] :: m == n
    ensures id in (pending - {l}).Values <==> id in pending.Values && id != pending[l]
  {
    var rest := pending - {l};
    assert forall m | m in rest :: m in pending && rest[m] == pending[m] && pending[m] != pending[l];
    if id in pending.Values && id != pending[l] {
      var m :| m in pending && pending[m] == id;
      assert m in rest && rest[m] == id;
    }
  }

  /** An entry leaves the map: replaced, or consumed. */
  lemma LedgerAfterLeaving(pending: map<LibraryId, S.TimerId>, next: S.TimerId, log: seq<Event>, l: LibraryId, e: Event)
    requires Ledger(pending, next, log) && l in pending
    requires e == Replaced(l, pending[l]) || e == Started(l, pending[l])
    ensures Ledger(pending - {l}, next, log + [e])
  {
    var pending' := pending - {l};
    forall m ensures Balanced(pending', log + [e], m) {
      assert Balanced(pending, log, m);
      CountMore(log, e, Asking(m));
      CountMore(log, e, Running(m));
      CountMore(log, e, Yielding(m));
    }
    forall id: S.TimerId ensures Accounted(pending', next, log + [e], id) {
      assert Accounted(pending, next, log, id);
      CountMore(log, e, Opening(id));
      CountMore(log, e, Ending(id));
      ValuesWithout(pending, l, id);
    }
  }

  lemma ValuesWith(pending: map<LibraryId, S.TimerId>, l: LibraryId, next: S.TimerId, id: S.TimerId)
    requires l !in pending
    ensures id in pending[l := next].Values <==> id in pending.Values || id == next
  {
    var more := pending[l := next];
    assert l in more && more[l] == next;
    if id in pending.Values {
      var m :| m in pending && pending[m] == id;
      assert m in more && more[m] == id;
    }
  }

  lemma LedgerAfterOpening(pending: map<LibraryId, S.TimerId>, next: S.TimerId, log: seq<Event>, l: LibraryId)
    requires Ledger(pending, next, log) && l !in pending
    ensures Ledger(pending[l := next], next + 1, log + [Scheduled(l, next)])
  {
    var pending', next', e := pending[l := next], next + 1, Scheduled(l, next);
    var log' := log + [e];
    forall m ensures Balanced(pending', log', m) {
      assert Balanced(pending, log, m);
      CountMore(log, e, Asking(m));
      CountMore(log, e, Running(m));
      CountMore(log, e, Yielding(m));
    }
    forall id: S.TimerId ensures Accounted(pending', next', log', id) {
      assert Accounted(pending, next, log, id);
      CountMore(log, e, Opening(id));
      CountMore(log, e, Ending(id));
      ValuesWith(pending, l, next, id);
    }
  }

  lemma LedgerAfterRunAtOnce(pending: map<LibraryId, S.TimerId>, next: S.TimerId, log: seq<Event>, l: LibraryId)
    requires Ledger(pending, next, log)
    ensures Ledger(pending, next, log + [RanAtOnce(l)])
  {
    var e := RanAtOnce(l);
    forall m ensures Balanced(pending, log + [e], m) {
      assert Balanced(pending, log, m);
      CountMore(log, e, Asking(m));
      CountMore(log, e, Running(m));
      CountMore(log, e, Yielding(m));
    }
    forall id: S.TimerId ensures Accounted(pending, next, log + [e], id) {
      assert Accounted(pending, next, log, id);
      CountMore(log, e, Opening(id));
      CountMore(log, e, Ending(id));
    }
  }

  /** A longer log keeps every start; pending libraries may only leave by a start. */
  lemma FollowedByMore(pending: map<LibraryId, S.TimerId>, pending': map<LibraryId, S.TimerId>,
                       log: seq<Event>, more: seq<Event>)
    requires Followed(pending, log)
    requires forall l | l in pending && l !in pending' :: exists j :: 0 <= j < |more| && Is(more[j], Running(l))
    requires forall j | 0 <= j < |more| && more[j].Scheduled? :: more[j].l in pending'
    ensures Followed(pending', log + more)
  {
    var log' := log + more;
    forall i | 0 <= i < |log'| && log'[i].Scheduled?
      ensures log'[i].l in pending' || StartedAfter(log', i, log'[i].l)
    {
      if i < |log| {
        var l := log[i].l;
        if l in pending && l !in pending' {
          var j :| 0 <= j < |more| && Is(more[j], Running(l));
          assert Is(log'[|log| + j], Running(l));
        } else if l !in pending {
          var j :| i < j < |log| && Is(log[j], Running(l));
          assert Is(log'[j], Running(l));
        }
      } else {
        assert log'[i] == more[i - |log|];
      }
    }
  }

  // ---- Over whole runs ----

  ghost predicate Inv(h: History) {
    && Ledger(h.queue.pending, h.queue.next, h.log)
    && Followed(h.queue.pending, h.log)
    && (h.queue.stopped ==> h.queue.pending == map[])
  }

  /** A schedule of a library that is not pending. */
  lemma NewEntryKeeps(pending: map<LibraryId, S.TimerId>, next: S.TimerId, log: seq<Event>, l: LibraryId)
    requires Ledger(pending, next, log) && Followed(pending, log) && l !in pending
    ensures var log' := log + [Scheduled(l, next)];
            Ledger(pending[l := next], next + 1, log') && Followed(pending[l := next], log')
  {
    LedgerAfterOpening(pending, next, log, l);
    FollowedByMore(pending, pending[l := next], log, [Scheduled(l, next)]);
  }

  /** A schedule of a library that is pending. */
  lemma ReplacedEntryKeeps(pending: map<LibraryId, S.TimerId>, next: S.TimerId, log: seq<Event>, l: LibraryId)
    requires Ledger(pending, next, log) && Followed(pending, log) && l in pending
    ensures var log' := log + [Replaced(l, pending[l])] + [Scheduled(l, next)];
            Ledger(pending[l := next], next + 1, log') && Followed(pending[l := next], log')
  {
    var replaced, entry := Replaced(l, pending[l]), Scheduled(l, next);
    LedgerAfterLeaving(pending, next, log, l, replaced);
    LedgerAfterOpening(pending - {l}, next, log + [replaced], l);
    assert (pending - {l})[l := next] == pending[l := next];
    FollowedByMore(pending, pending[l := next], log, [replaced, entry]);
    assert log + [replaced, entry] == log + [replaced] + [entry];
  }

  /** A schedule on a stopped strategy. */
  lemma RanAtOnceKeeps(pending: map<LibraryId, S.TimerId>, next: S.TimerId, log: seq<Event>, l: LibraryId)
    requires Ledger(pending, next, log) && Followed(pending, log)
    ensures Ledger(pending, next, log + [RanAtOnce(l)]) && Followed(pending, log + [RanAtOnce(l)])
  {
    LedgerAfterRunAtOnce(pending, next, log, l);
    FollowedByMore(pending, pending, log, [RanAtOnce(l)]);
  }

  lemma ScheduleWrites(h: History, l: LibraryId)
    requires !h.queue.stopped
    ensures var h', q := Schedule(h, l), h.queue;
            && h'.queue.pending == q.pending[l := q.next] && h'.queue.next == q.next + 1 && !h'.queue.stopped
            && h'.log == (if l in q.pending then h.log + [Replaced(l, q.pending[l])] else h.log) + [Scheduled(l, q.next)]
  {
    assert h.log + [] == h.log;
  }

  lemma ScheduleKeepsInv(h: History, l: LibraryId)
    requires Inv(h)
    ensures Inv(Schedule(h, l))
  {
    var q := h.queue;
    if q.stopped {
      RanAtOnceKeeps(q.pending, q.next, h.log, l);
    } else {
      ScheduleWrites(h, l);
      if l in q.pending {
        ReplacedEntryKeeps(q.pending, q.next, h.log, l);
      } else {
        NewEntryKeeps(q.pending, q.next, h.log, l);
      }
    }
  }

  /** Consuming an entry, by a callback or by the loop of `Stop`. */
  lemma ConsumeKeeps(q: S.Queue, log: seq<Event>, l: LibraryId)
    requires Ledger(q.pending, q.next, log) && Followed(q.pending, log) && l in q.pending
    ensures var log' := log + [Started(l, q.pending[l])];
            Ledger(q.pending - {l}, q.next, log') && Followed(q.pending - {l}, log')
  {
    var e := Started(l, q.pending[l]);
    LedgerAfterLeaving(q.pending, q.next, log, l, e);
    assert Is([e][0], Running(l));
    FollowedByMore(q.pending, q.pending - {l}, log, [e]);
  }

  lemma {:induction false} TakeAllKeeps(h: History, order: seq<LibraryId>)
    requires Ledger(h.queue.pending, h.queue.next, h.log) && Followed(h.queue.pending, h.log)
    requires forall l | l in order :: l in h.queue.pending
    requires forall i, j | 0 <= i < j < |order| :: order[i] != order[j]
    ensures var r := TakeAll(h, order); Ledger(r.queue.pending, r.queue.next, r.log) && Followed(r.queue.pending, r.log)
    decreases |order|
  {
    if order == [] {
    } else {
      var n := |order| - 1;
      TakeAllKeeps(h, order[..n]);
      var r := TakeAll(h, order[..n]);
      ConsumeKeeps(r.queue, r.log, order[n]);
    }
  }

  datatype Op = DoSchedule(l: LibraryId) | DoFire(i: S.TimerId) | DoCallback(i: S.TimerId) | DoStop(order: seq<LibraryId>)

  ghost predicate Enabled(h: History, op: Op) {
    match op
    case DoSchedule(_) => true
    case DoFire(i) => i in h.queue.armed
    case DoCallback(i) => i in h.fired
    case DoStop(order) => IsOrder(order, h.queue.pending.Keys)
  }

  ghost function Apply(h: History, op: Op): History
    requires Enabled(h, op)
  {
    match op
    case DoSchedule(l) => Schedule(h, l)
    case DoFire(i) => Fire(h, i)
    case DoCallback(i) => Callback(h, i)
    case DoStop(order) => Stop(h, order)
  }

  ghost predicate IsRun(h: History, run: seq<Op>)
    decreases |run|
  {
    run == [] || (Enabled(h, run[0]) && IsRun(Apply(h, run[0]), run[1..]))
  }

  ghost function Exec(h: History, run: seq<Op>): History
    requires IsRun(h, run)
    decreases |run|
  {
    if run == [] then h else Exec(Apply(h, run[0]), run[1..])
  }

  lemma ApplyKeepsInv(h: History, op: Op)
    requires Inv(h) && Enabled(h, op)
    ensures Inv(Apply(h, op))
  {
    match op
    case DoSchedule(l) => ScheduleKeepsInv(h, l);
    case DoFire(i) =>
    case DoCallback(i) =>
      if h.fired[i] in h.queue.pending {
        ConsumeKeeps(h.queue, h.log, h.fired[i]);
      }
    case DoStop(order) =>
      if !h.queue.stopped {
        TakeAllKeeps(h.(queue := S.Halt(h.queue)), order);
        assert h.queue.pending - (set l | l in order) == map[];
      }
  }

  lemma {:induction false} RunKeepsInv(h: History, run: seq<Op>)
    requires Inv(h) && IsRun(h, run)
    ensures Inv(Exec(h, run))
    decreases |run|
  {
    if run == [] {
    } else {
      ApplyKeepsInv(h, run[0]);
      RunKeepsInv(Apply(h, run[0]), run[1..]);
    }
  }

  lemma InitialInv()
    ensures Inv(INITIAL)
  {
    assert forall l :: Balanced(map[], [], l);
    assert forall id: S.TimerId :: Accounted(map[], 0, [], id);
  }

  /** In any order of schedules, timers, callbacks and stops: each entry ever made is
      either pending or left the map exactly once; cleanups started never exceed
      cleanups asked for, and the difference is what was replaced or is pending. */
  lemma EntriesAreConsumedOnce(run: seq<Op>, id: S.TimerId, l: LibraryId)
    requires IsRun(INITIAL, run)
    ensures var h := Exec(INITIAL, run);
            && (id < h.queue.next ==> Count(h.log, Ending(id)) == if id in h.queue.pending.Values then 0 else 1)
            && (id >= h.queue.next ==> Count(h.log, Ending(id)) == 0)
            && Count(h.log, Running(l)) <= Count(h.log, Asking(l))
            && Count(h.log, Asking(l)) - Count(h.log, Running(l)) ==
               Count(h.log, Yielding(l)) + if l in h.queue.pending then 1 else 0
  {
    InitialInv();
    RunKeepsInv(INITIAL, run);
    var h := Exec(INITIAL, run);
    assert Accounted(h.queue.pending, h.queue.next, h.log, id) && Balanced(h.queue.pending, h.log, l);
  }

  /** Every schedule is still pending or was followed by a cleanup of its library;
      once the strategy has stopped, every schedule was followed by one. */
  lemma NoScheduleIsLost(run: seq<Op>, i: nat)
    requires IsRun(INITIAL, run)
    requires var h := Exec(INITIAL, run); i < |h.log| && h.log[i].Scheduled?
    ensures var h := Exec(INITIAL, run);
            && (h.log[i].l in h.queue.pending || StartedAfter(h.log, i, h.log[i].l))
            && (h.queue.stopped ==> StartedAfter(h.log, i, h.log[i].l))
  {
    InitialInv();
    RunKeepsInv(INITIAL, run);
  }
}
