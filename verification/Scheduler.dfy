/** The delayed cleanup strategy as a value: the pending map, the timers that
    have been started and neither stopped nor fired, and the stopped flag.
    Each function is one critical section under the strategy's mutex. */
module Scheduler {
  import opened Records

  type TimerId = nat

  /** `pending` names the timer of each entry; `armed` names the library of each
      running timer; `next` is a timer never used before. */
  datatype Queue = Queue(
    pending: map<LibraryId, TimerId>,
    armed: map<TimerId, LibraryId>,
    next: TimerId,
    stopped: bool)

  const EMPTY := Queue(map[], map[], 0, false)

  /** Timers are handed out in order. */
  ghost predicate Valid(q: Queue) {
    && (forall l | l in q.pending :: q.pending[l] < q.next)
    && (forall i | i in q.armed :: i < q.next)
    && (forall l | l in q.pending && q.pending[l] in q.armed :: q.armed[q.pending[l]] == l)
  }

  /** `timer.Stop()` on the entry of a library: a timer that already fired is
      not armed any more, and stopping it does nothing. */
  function StopTimer(q: Queue, l: LibraryId): Queue {
    if l in q.pending then q.(armed := q.armed - {q.pending[l]}) else q
  }

  /** Replace any entry of the library by a fresh one with a fresh timer. */
  function Schedule(q: Queue, l: LibraryId): Queue {
    var p := StopTimer(q, l);
    Queue(p.pending[l := p.next], p.armed[p.next := l], p.next + 1, p.stopped)
  }

  /** The timer goes off; its callback has not entered the mutex yet. */
  function Fire(q: Queue, i: TimerId): Queue {
    q.(armed := q.armed - {i})
  }

  /** The callback takes the entry of the library, whichever timer made it. */
  function Consume(q: Queue, l: LibraryId): Queue {
    q.(pending := q.pending - {l})
  }

  function Halt(q: Queue): Queue {
    q.(stopped := true)
  }

  function Clear(q: Queue): Queue {
    q.(pending := map[])
  }
}
