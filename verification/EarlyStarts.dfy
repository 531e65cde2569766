/** Cleanups that the delayed strategy starts before their delay is over. */
module EarlyStarts {
  import opened Records
  import opened Cleanup
  import S = Scheduler

  /** The timer is armed for the library, or has gone off and not called back yet. */
  ghost predicate RunsFor(h: History, i: S.TimerId, l: LibraryId) {
    || (i in h.queue.armed && h.queue.armed[i] == l)
    || (i in h.fired && h.fired[i] == l)
  }

  /** No timer is armed and fired at once, and every entry's own timer is one of them. */
  ghost predicate Timed(h: History) {
    && (forall i | i in h.queue.armed :: i < h.queue.next && i !in h.fired)
    && (forall i | i in h.fired :: i < h.queue.next)
    && (forall l | l in h.queue.pending :: RunsFor(h, h.queue.pending[l], l))
    && (forall l, m | l in h.queue.pending && m in h.queue.pending && h.queue.pending[l] == h.queue.pending[m] :: l == m)
  }

  lemma {:induction false} TakeAllTimers(h: History, order: seq<LibraryId>)
    requires forall l | l in order :: l in h.queue.pending
    requires forall i, j | 0 <= i < j < |order| :: order[i] != order[j]
    ensures forall i | i in TakeAll(h, order).queue.armed ::
              i in h.queue.armed && TakeAll(h, order).queue.armed[i] == h.queue.armed[i]
    decreases |order|
  {
    if order == [] {
    } else {
      TakeAllTimers(h, order[..|order| - 1]);
    }
  }

  lemma ApplyKeepsTimed(h: History, op: Op)
    requires Timed(h) && Enabled(h, op)
    ensures Timed(Apply(h, op))
  {
    if op.DoStop? && !h.queue.stopped {
      TakeAllTimers(h.(queue := S.Halt(h.queue)), op.order);
      assert h.queue.pending - (set l | l in op.order) == map[];
    }
  }

  lemma {:induction false} RunKeepsTimed(h: History, run: seq<Op>)
    requires Timed(h) && IsRun(h, run)
    ensures Timed(Exec(h, run))
    decreases |run|
  {
    if run == [] {
    } else {
      ApplyKeepsTimed(h, run[0]);
      RunKeepsTimed(Apply(h, run[0]), run[1..]);
    }
  }

  /** The callback of timer `i` would start the cleanup of entry `id` now, although
      that entry's own timer has not gone off. */
  ghost predicate StartsEarly(h: History, i: S.TimerId, id: S.TimerId) {
    && i in h.fired && h.fired[i] in h.queue.pending
    && h.queue.pending[h.fired[i]] == id && id in h.queue.armed
  }

  /** After every run, a callback that finds an entry starts its cleanup, and starts
      it early exactly when that entry's own timer is not one of those that fired. */
  lemma CallbackStartsEarlyIff(run: seq<Op>, i: S.TimerId)
    requires IsRun(INITIAL, run)
    requires var h := Exec(INITIAL, run); i in h.fired && h.fired[i] in h.queue.pending
    ensures var h := Exec(INITIAL, run);
            var id := h.queue.pending[h.fired[i]];
            && Callback(h, i).log == h.log + [Started(h.fired[i], id)]
            && (StartsEarly(h, i, id) <==> id !in h.fired)
            && (StartsEarly(h, i, id) <==> id in Callback(h, i).queue.armed)
  {
    RunKeepsTimed(INITIAL, run);
    var h := Exec(INITIAL, run);
    assert RunsFor(h, h.queue.pending[h.fired[i]], h.fired[i]);
  }

  /** Once no other timer runs for the library of an entry, none ever will while the
      entry is pending: its cleanup cannot start early any more. */
  ghost predicate OnlyOwnTimer(h: History, id: S.TimerId, l: LibraryId) {
    && id < h.queue.next
    && (forall m | m in h.queue.pending && h.queue.pending[m] == id :: m == l)
    && (l in h.queue.pending && h.queue.pending[l] == id ==> forall i | RunsFor(h, i, l) :: i == id)
  }

  lemma ApplyKeepsOnlyOwnTimer(h: History, op: Op, id: S.TimerId, l: LibraryId)
    requires Timed(h) && Enabled(h, op) && OnlyOwnTimer(h, id, l)
    ensures OnlyOwnTimer(Apply(h, op), id, l)
  {
    var h' := Apply(h, op);
    if op.DoStop? && !h.queue.stopped {
      assert h.queue.pending - (set l | l in op.order) == map[];
    } else {
      forall i | RunsFor(h', i, l) ensures RunsFor(h, i, l) || i == h.queue.next {
      }
    }
  }

  lemma {:induction false} NeverEarly(h: History, run: seq<Op>, id: S.TimerId, l: LibraryId, i: S.TimerId)
    requires Timed(h) && IsRun(h, run) && OnlyOwnTimer(h, id, l)
    ensures !StartsEarly(Exec(h, run), i, id)
    decreases |run|
  {
    if run == [] {
      assert i in h.fired ==> RunsFor(h, i, h.fired[i]);
    } else {
      ApplyKeepsTimed(h, run[0]);
      ApplyKeepsOnlyOwnTimer(h, run[0], id, l);
      NeverEarly(Apply(h, run[0]), run[1..], id, l, i);
    }
  }

  /** Another timer for the library gets to call back before the entry's own. */
  lemma EarlyStart(h: History, id: S.TimerId, l: LibraryId, i: S.TimerId) returns (run: seq<Op>)
    requires l in h.queue.pending && h.queue.pending[l] == id && id in h.queue.armed
    requires i != id && RunsFor(h, i, l)
    ensures IsRun(h, run) && StartsEarly(Exec(h, run), i, id)
  {
    if i in h.fired && h.fired[i] == l {
      run := [];
    } else {
      run := [DoFire(i)];
      assert IsRun(Apply(h, run[0]), run[1..]) && Exec(Apply(h, run[0]), run[1..]) == Apply(h, run[0]);
    }
  }

  /** The entry with this identity can be started early in some continuation. */
  ghost predicate CanStartEarly(h: History, id: S.TimerId) {
    exists more, i :: IsRun(h, more) && StartsEarly(Exec(h, more), i, id)
  }

  lemma EntryCanStartEarlyIff(h: History, id: S.TimerId, l: LibraryId)
    requires Timed(h) && l in h.queue.pending && h.queue.pending[l] == id && id in h.queue.armed
    ensures CanStartEarly(h, id) <==> exists i :: i != id && RunsFor(h, i, l)
  {
    if i :| i != id && RunsFor(h, i, l) {
      var more := EarlyStart(h, id, l, i);
    } else {
      assert OnlyOwnTimer(h, id, l);
      forall more, i | IsRun(h, more) ensures !StartsEarly(Exec(h, more), i, id) {
        NeverEarly(h, more, id, l, i);
      }
    }
  }

  /** After any run, a schedule makes an entry whose cleanup can start early: with the
      very next callback exactly when a callback for the library is under way, and in
      some continuation exactly when a timer of the library that the schedule did not
      stop is armed or has gone off. */
  lemma ScheduleCanStartEarlyIff(run: seq<Op>, l: LibraryId)
    requires IsRun(INITIAL, run) && !Exec(INITIAL, run).queue.stopped
    ensures var before := Exec(INITIAL, run);
            var id, h := before.queue.next, Schedule(before, l);
            && l in h.queue.pending && h.queue.pending[l] == id
            && ((exists i :: StartsEarly(h, i, id)) <==> (exists i :: i in before.fired && before.fired[i] == l))
            && (CanStartEarly(h, id) <==> exists i :: i != id && RunsFor(h, i, l))
  {
    RunKeepsTimed(INITIAL, run);
    var before := Exec(INITIAL, run);
    var id, h := before.queue.next, Schedule(before, l);
    ApplyKeepsTimed(before, DoSchedule(l));
    EntryCanStartEarlyIff(h, id, l);
    if i :| i in before.fired && before.fired[i] == l {
      assert StartsEarly(h, i, id);
    }
    if i :| StartsEarly(h, i, id) {
      assert h.fired[i] == l;
    }
  }

  /** It does happen: a library is scheduled again while the callback of its first
      timer is under way, and that callback starts the new cleanup at once. */
  lemma StaleCallbackTakesNewEntry(l: LibraryId)
    ensures var h := Schedule(Fire(Schedule(INITIAL, l), 0), l);
            StartsEarly(h, 0, 1) && Callback(h, 0).log == h.log + [Started(l, 1)]
  {
  }
}
