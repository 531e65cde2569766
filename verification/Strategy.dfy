/** The delayed cleanup strategy as an object, one method per critical section. */
module Strategy {
  import opened Records
  import opened Cleanup
  import opened Timers
  import S = Scheduler

  /** What a schedule on a running strategy comes to. */
  lemma ScheduleReplaces(h: History, l: LibraryId)
    requires !h.queue.stopped
    requires forall m | m in h.queue.pending :: h.queue.pending[m] < h.queue.next
    requires forall i | i in h.queue.armed :: i < h.queue.next
    ensures var q, q', log := h.queue, Schedule(h, l).queue, Schedule(h, l).log;
            && !q'.stopped && q'.pending == q.pending[l := q.next] && q.next in q'.armed && q'.armed[q.next] == l
            && (l in q.pending ==> q.pending[l] !in q'.armed && Replaced(l, q.pending[l]) in log)
            && log[|log| - 1..] == [Scheduled(l, q.next)]
            && (forall i | i in q.armed && !(l in q.pending && i == q.pending[l]) ::
                  i in q'.armed && q'.armed[i] == q.armed[i])
  {
    ScheduleWrites(h, l);
  }

  lemma OrderGrows(order: seq<LibraryId>, keys: set<LibraryId>, l: LibraryId)
    requires IsOrder(order, keys) && l !in keys
    ensures IsOrder(order + [l], keys + {l})
  {
    forall i, j | 0 <= i < j < |order| + 1 ensures (order + [l])[i] != (order + [l])[j] {
      assert order[i] in order;
    }
  }

  lemma TakeOneMore(h: History, order: seq<LibraryId>, l: LibraryId)
    requires forall m | m in order + [l] :: m in h.queue.pending
    requires forall i, j | 0 <= i < j < |order + [l]| :: (order + [l])[i] != (order + [l])[j]
    ensures forall m | m in order :: m in h.queue.pending
    ensures forall i, j | 0 <= i < j < |order| :: order[i] != order[j]
    ensures l in TakeAll(h, order).queue.pending && l in h.queue.pending
    ensures TakeAll(h, order + [l]) == Take(TakeAll(h, order), l)
    ensures TakeAll(h, order).queue.pending[l] == h.queue.pending[l]
  {
    assert (order + [l])[..|order|] == order;
    forall m | m in order ensures m in order + [l] {
    }
    forall i, j | 0 <= i < j < |order| ensures order[i] != order[j] {
      assert (order + [l])[i] != (order + [l])[j];
    }
    forall i | 0 <= i < |order| ensures order[i] != l {
      assert (order + [l])[i] != (order + [l])[|order|];
    }
  }

  // ---- The strategy object ----

  class DelayedCleanupStrategy {
    var pending: map<LibraryId, S.TimerId>
    var stopped: bool
    var armed: map<S.TimerId, LibraryId>
    var fired: map<S.TimerId, LibraryId>
    var next: S.TimerId
    ghost var log: seq<Event>

    ghost function Contents(): History
      reads this
    {
      History(S.Queue(pending, armed, next, stopped), fired, log)
    }

    /** Timers are handed out in order. */
    ghost predicate Valid()
      reads this
    {
      (forall l | l in pending :: pending[l] < next) && (forall i | i in armed :: i < next)
    }

    constructor ()
      ensures Valid() && Contents() == INITIAL
    {
      pending, stopped, armed, fired, next, log := map[], false, map[], map[], 0, [];
    }

    /** On a running strategy the new entry and its timer take the place of the old
        ones, and the old timer is stopped; on a stopped one the cleanup runs at once. */
    method ScheduleCleanup(l: LibraryId)
      requires Valid()
      modifies this
      ensures Valid() && Contents() == Schedule(old(Contents()), l)
      ensures stopped == old(stopped) && fired == old(fired)
      ensures stopped ==> pending == old(pending) && armed == old(armed) && log == old(log) + [RanAtOnce(l)]
      ensures !stopped ==> pending == old(pending)[l := old(next)] && old(next) in armed && armed[old(next)] == l
      ensures !stopped && l in old(pending) ==> old(pending)[l] !in armed && Replaced(l, old(pending)[l]) in log
      ensures !stopped ==> log[|log| - 1..] == [Scheduled(l, old(next))]
      ensures forall i | i in old(armed) && !(l in old(pending) && i == old(pending)[l]) ::
                i in armed && armed[i] == old(armed)[i]
    {
      ghost var before := Contents();
      if stopped {
        log := log + [RanAtOnce(l)];
        return;
      }
      if l in pending {
        armed := armed - {pending[l]};
        log := log + [Replaced(l, pending[l])];
        pending := pending - {l};
      }
      armed := armed[next := l];
      pending := pending[l := next];
      log := log + [Scheduled(l, next)];
      next := next + 1;
      assert pending == S.Schedule(before.queue, l).pending;
      assert Contents() == Schedule(before, l);
      ScheduleReplaces(before, l);
    }

    /** The runtime lets a timer go off. */
    method GoOff(i: S.TimerId)
      requires Valid() && i in armed
      modifies this
      ensures Valid() && Contents() == Fire(old(Contents()), i)
      ensures i !in armed && i in fired && fired[i] == old(armed)[i] && pending == old(pending) && log == old(log)
    {
      fired := fired[i := armed[i]];
      armed := armed - {i};
    }

    /** The function passed to the timer. */
    method RunCallback(i: S.TimerId)
      requires Valid() && i in fired
      modifies this
      ensures Valid() && Contents() == Callback(old(Contents()), i)
      ensures i !in fired && armed == old(armed) && pending == old(pending) - {old(fired)[i]}
      ensures old(fired)[i] in old(pending) ==> log == old(log) + [Started(old(fired)[i], old(pending)[old(fired)[i]])]
      ensures old(fired)[i] !in old(pending) ==> log == old(log)
    {
      var l := fired[i];
      fired := fired - {i};
      if l !in pending {
        assert pending == pending - {l};
        return;
      }
      log := log + [Started(l, pending[l])];
      pending := pending - {l};
    }

    /** The loop meets the entries in any order and empties the map at the end. */
    method StopAll()
      requires Valid()
      modifies this
      ensures Valid()
      ensures exists order :: IsOrder(order, old(pending).Keys) && Contents() == Stop(old(Contents()), order)
      ensures if old(stopped) then Contents() == old(Contents()) else StartedAll(old(Contents()), Contents())
    {
      ghost var before := Contents();
      if stopped {
        ghost var order := AnyOrder(pending.Keys);
        assert Contents() == Stop(before, order);
        return;
      }
      stopped := true;
      ghost var halted := Contents();
      ghost var order := [];
      var todo := pending.Keys;
      while todo != {}
        invariant todo <= pending.Keys && IsOrder(order, pending.Keys - todo)
        invariant pending == before.queue.pending && stopped && fired == before.fired && next == before.queue.next
        invariant armed == TakeAll(halted, order).queue.armed && log == TakeAll(halted, order).log
        decreases todo
      {
        var l :| l in todo;
        assert pending.Keys - (todo - {l}) - {l} == pending.Keys - todo;
        todo := todo - {l};
        OrderGrows(order, pending.Keys - todo - {l}, l);
        assert pending.Keys - todo - {l} + {l} == pending.Keys - todo;
        TakeOneMore(halted, order, l);
        armed := armed - {pending[l]};
        log := log + [Started(l, pending[l])];
        order := order + [l];
      }
      pending := map[];
      assert IsOrder(order, before.queue.pending.Keys);
      assert before.queue.pending - (set l | l in order) == map[];
      assert Contents() == Stop(before, order);
      StopStarts(before, order);
    }
  }
}
