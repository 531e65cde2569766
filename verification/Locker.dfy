/** The keyed lock: a table of reference-counted mutexes guarded by one mutex.

    A session is one `Lock(id)` ... `Unlock(id)` pair.  Entries live on a heap, so
    an entry that has been dropped from the table can still be locked.  One step is
    one operation on a mutex, or one critical section under the table's mutex.
  */
module Locker {
  import opened Options

  type Id = string
  type Session = nat
  type EntryId = nat

  /** `owner` is the session that locked the entry's mutex and has not unlocked it. */
  datatype Entry = Entry(refs: int, owner: Option<Session>)

  datatype Pc =
    | Enter(id: Id)                                          // Lock: about to lock the table
    | Find(id: Id)                                           // Lock: look up or create, count
    | Leave(id: Id, e: EntryId)                              // Lock: about to unlock the table
    | Wait(id: Id, e: EntryId)                               // Lock: about to lock the entry
    | Hold(id: Id, e: EntryId)                               // Lock has returned
    | Exit(id: Id, e: EntryId)                               // Unlock: about to lock the table
    | Look(id: Id, e: EntryId)                               // Unlock: look up, uncount, maybe delete
    | Part(id: Id, e: EntryId, found: Option<EntryId>)       // Unlock: about to unlock the table
    | Open(id: Id, e: EntryId, opens: EntryId)               // Unlock: about to unlock the entry found
    | Gone

  datatype State = State(
    table: map<Id, EntryId>,
    heap: map<EntryId, Entry>,
    next: EntryId,
    guard: Option<Session>,
    pcs: map<Session, Pc>)

  const INITIAL := State(map[], map[], 0, None, map[])

  // ---- Steps ----

  predicate WantsGuard(pc: Pc) {
    pc.Enter? || pc.Exit?
  }

  predicate HasGuard(pc: Pc) {
    pc.Find? || pc.Leave? || pc.Look? || pc.Part?
  }

  ghost predicate CanStep(s: State, t: Session) {
    && t in s.pcs
    && s.pcs[t] != Gone
    && (WantsGuard(s.pcs[t]) ==> s.guard == None)
    && (s.pcs[t].Wait? ==> s.pcs[t].e in s.heap && s.heap[s.pcs[t].e].owner == None)
  }

  function At(s: State, t: Session, pc: Pc): State {
    s.(pcs := s.pcs[t := pc])
  }

  /** The critical section of `Lock`. */
  function Count(s: State, t: Session, id: Id): State {
    if id in s.table then
      var e := s.table[id];
      if e in s.heap then
        At(s.(heap := s.heap[e := s.heap[e].(refs := s.heap[e].refs + 1)]), t, Leave(id, e))
      else s
    else
      State(s.table[id := s.next], s.heap[s.next := Entry(1, None)], s.next + 1, s.guard,
            s.pcs[t := Leave(id, s.next)])
  }

  /** The critical section of `Unlock`; `mine` is the entry this session locked,
      which the code does not remember. */
  function Uncount(s: State, t: Session, id: Id, mine: EntryId): State {
    if id !in s.table then At(s, t, Part(id, mine, None))
    else
      var e := s.table[id];
      if e in s.heap then
        var refs := s.heap[e].refs - 1;
        At(s.(heap := s.heap[e := s.heap[e].(refs := refs)],
              table := if refs == 0 then s.table - {id} else s.table), t, Part(id, mine, Some(e)))
      else s
  }

  function SetOwner(s: State, e: EntryId, owner: Option<Session>): map<EntryId, Entry> {
    if e in s.heap then s.heap[e := s.heap[e].(owner := owner)] else s.heap
  }

  function Step(s: State, t: Session): State
    requires t in s.pcs
  {
    match s.pcs[t]
    case Enter(id) => At(s.(guard := Some(t)), t, Find(id))
    case Find(id) => Count(s, t, id)
    case Leave(id, e) => At(s.(guard := None), t, Wait(id, e))
    case Wait(id, e) => At(s.(heap := SetOwner(s, e, Some(t))), t, Hold(id, e))
    case Hold(id, e) => At(s, t, Exit(id, e))
    case Exit(id, e) => At(s.(guard := Some(t)), t, Look(id, e))
    case Look(id, e) => Uncount(s, t, id, e)
    case Part(id, e, found) =>
      At(s.(guard := None), t, if found.Some? then Open(id, e, found.value) else Gone)
    case Open(id, e, opens) => At(s.(heap := SetOwner(s, opens, None)), t, Gone)
    case Gone => s
  }

  datatype Label = Call(t: Session, id: Id) | Run(t: Session)

  ghost predicate Enabled(s: State, x: Label) {
    match x
    case Call(t, _) => t !in s.pcs
    case Run(t) => CanStep(s, t)
  }

  function Next(s: State, x: Label): State {
    match x
    case Call(t, id) => At(s, t, Enter(id))
    case Run(t) => if t in s.pcs then Step(s, t) else s
  }

  // ---- The invariant ----

  /** Between counting and uncounting: waiting for, holding or about to give up the entry. */
  predicate Counted(pc: Pc) {
    pc.Leave? || pc.Wait? || pc.Hold? || pc.Exit? || pc.Look?
  }

  /** Between locking and unlocking the entry's mutex. */
  predicate Locking(pc: Pc) {
    pc.Hold? || pc.Exit? || pc.Look? || pc.Part? || pc.Open?
  }

  function Sharers(pcs: map<Session, Pc>, e: EntryId): set<Session> {
    set t | t in pcs && Counted(pcs[t]) && pcs[t].e == e
  }

  ghost predicate GuardInv(s: State) {
    && (s.guard.Some? ==> s.guard.value in s.pcs)
    && (forall t | t in s.pcs :: HasGuard(s.pcs[t]) <==> s.guard == Some(t))
  }

  /** Everyone who holds or waits on an id shares the entry in the table. */
  ghost predicate Shared(s: State) {
    && (forall t | t in s.pcs && Counted(s.pcs[t]) ::
          s.pcs[t].id in s.table && s.table[s.pcs[t].id] == s.pcs[t].e)
    && (forall t | t in s.pcs && s.pcs[t].Part? :: s.pcs[t].found == Some(s.pcs[t].e))
    && (forall t | t in s.pcs && s.pcs[t].Open? :: s.pcs[t].opens == s.pcs[t].e)
  }

  /** The table maps different ids to different entries of the heap. */
  ghost predicate TableInv(s: State) {
    && (forall e | e in s.heap :: e < s.next)
    && (forall id | id in s.table :: s.table[id] in s.heap)
    && (forall i, j | i in s.table && j in s.table && s.table[i] == s.table[j] :: i == j)
  }

  ghost predicate CountedExactly(s: State, id: Id)
    requires id in s.table
  {
    var e := s.table[id];
    e in s.heap && s.heap[e].refs == |Sharers(s.pcs, e)| && s.heap[e].refs > 0
  }

  ghost predicate CountInv(s: State) {
    forall id | id in s.table :: CountedExactly(s, id)
  }

  ghost predicate OwnerInv(s: State) {
    && (forall t | t in s.pcs && Locking(s.pcs[t]) :: s.pcs[t].e in s.heap && s.heap[s.pcs[t].e].owner == Some(t))
    && (forall e | e in s.heap && s.heap[e].owner.Some? :: var t := s.heap[e].owner.value;
          t in s.pcs && Locking(s.pcs[t]) && s.pcs[t].e == e)
  }

  ghost predicate Inv(s: State) {
    GuardInv(s) && Shared(s) && TableInv(s) && CountInv(s) && OwnerInv(s)
  }

  lemma SharersAfter(pcs: map<Session, Pc>, t: Session, pc: Pc, e: EntryId)
    ensures Sharers(pcs[t := pc], e) ==
            if Counted(pc) && pc.e == e then Sharers(pcs, e) + {t} else Sharers(pcs, e) - {t}
  {
  }

  lemma StepGuard(s: State, t: Session)
    requires GuardInv(s) && TableInv(s) && CanStep(s, t)
    ensures GuardInv(Step(s, t))
  {
  }

  lemma StepTable(s: State, t: Session)
    requires TableInv(s) && CanStep(s, t)
    ensures TableInv(Step(s, t))
  {
  }

  lemma CountOwner(s: State, t: Session)
    requires OwnerInv(s) && TableInv(s) && CanStep(s, t) && (s.pcs[t].Find? || s.pcs[t].Look?)
    ensures OwnerInv(Step(s, t))
  {
  }

  lemma StepOwner(s: State, t: Session)
    requires OwnerInv(s) && TableInv(s) && Shared(s) && CanStep(s, t)
    ensures OwnerInv(Step(s, t))
  {
    if s.pcs[t].Find? || s.pcs[t].Look? {
      CountOwner(s, t);
    }
  }

  lemma FindShares(s: State, t: Session)
    requires Shared(s) && TableInv(s) && CanStep(s, t) && s.pcs[t].Find?
    ensures Shared(Step(s, t))
  {
  }

  /** Counters that move with their sharers stay exact. */
  lemma CountsFollow(s: State, s': State, t: Session, pc: Pc, i: Id)
    requires i in s.table && i in s'.table && s.table[i] == s'.table[i] && CountedExactly(s, i)
    requires s'.pcs == s.pcs[t := pc] && t in s.pcs
    requires var e := s.table[i];
             && e in s'.heap
             && !(Counted(s.pcs[t]) && s.pcs[t].e == e)
             && s'.heap[e].refs == s.heap[e].refs + (if Counted(pc) && pc.e == e then 1 else 0)
    ensures CountedExactly(s', i)
  {
    var e := s.table[i];
    SharersAfter(s.pcs, t, pc, e);
    assert t !in Sharers(s.pcs, e);
  }

  lemma FindCounts(s: State, t: Session)
    requires Shared(s) && TableInv(s) && CountInv(s) && CanStep(s, t) && s.pcs[t].Find?
    ensures CountInv(Step(s, t))
  {
    var s' := Step(s, t);
    forall i | i in s'.table ensures CountedExactly(s', i) {
      if i in s.table {
        CountsFollow(s, s', t, s'.pcs[t], i);
      } else {
        SharersAfter(s.pcs, t, s'.pcs[t], s.next);
        assert Sharers(s.pcs, s.next) == {};
      }
    }
  }

  /** Uncounting takes exactly this session out of the sharers of its entry. */
  lemma LookCountsMine(s: State, t: Session)
    requires Shared(s) && TableInv(s) && CountInv(s) && CanStep(s, t) && s.pcs[t].Look?
    ensures var mine, s' := s.pcs[t].e, Step(s, t);
            mine in s'.heap && s'.heap[mine].refs == |Sharers(s'.pcs, mine)|
  {
    var mine, s' := s.pcs[t].e, Step(s, t);
    assert CountedExactly(s, s.pcs[t].id);
    SharersAfter(s.pcs, t, s'.pcs[t], mine);
    assert t in Sharers(s.pcs, mine);
  }

  lemma LookShares(s: State, t: Session)
    requires Shared(s) && TableInv(s) && CountInv(s) && CanStep(s, t) && s.pcs[t].Look?
    ensures Shared(Step(s, t))
  {
    var s' := Step(s, t);
    var id, mine := s.pcs[t].id, s.pcs[t].e;
    LookCountsMine(s, t);
    forall u | u in s'.pcs && Counted(s'.pcs[u])
      ensures s'.pcs[u].id in s'.table && s'.table[s'.pcs[u].id] == s'.pcs[u].e
    {
      if s.pcs[u].id == id {
        assert u in Sharers(s'.pcs, mine);
      }
    }
  }

  lemma LookCounts(s: State, t: Session)
    requires Shared(s) && TableInv(s) && CountInv(s) && CanStep(s, t) && s.pcs[t].Look?
    ensures CountInv(Step(s, t))
  {
    var s' := Step(s, t);
    LookCountsMine(s, t);
    forall i | i in s'.table ensures CountedExactly(s', i) {
      assert CountedExactly(s, i);
      if i != s.pcs[t].id {
        CountsFollow(s, s', t, s'.pcs[t], i);
      }
    }
  }

  lemma OtherShares(s: State, t: Session)
    requires Shared(s) && CanStep(s, t) && !s.pcs[t].Find? && !s.pcs[t].Look?
    ensures Shared(Step(s, t))
  {
  }

  lemma CountsStay(s: State, s': State, t: Session, pc: Pc, i: Id)
    requires i in s.table && i in s'.table && s.table[i] == s'.table[i] && CountedExactly(s, i)
    requires s'.pcs == s.pcs[t := pc] && t in s.pcs
    requires s.table[i] in s'.heap && s'.heap[s.table[i]].refs == s.heap[s.table[i]].refs
    requires Counted(pc) == Counted(s.pcs[t]) && (Counted(pc) ==> pc.e == s.pcs[t].e)
    ensures CountedExactly(s', i)
  {
    SharersAfter(s.pcs, t, pc, s.table[i]);
    assert Sharers(s'.pcs, s.table[i]) == Sharers(s.pcs, s.table[i]);
  }

  lemma OtherCounts(s: State, t: Session)
    requires CountInv(s) && CanStep(s, t) && !s.pcs[t].Find? && !s.pcs[t].Look?
    ensures CountInv(Step(s, t))
  {
    var s' := Step(s, t);
    forall i | i in s'.table ensures CountedExactly(s', i) {
      CountsStay(s, s', t, s'.pcs[t], i);
    }
  }

  lemma CallKeepsInv(s: State, t: Session, id: Id)
    requires Inv(s) && t !in s.pcs
    ensures Inv(At(s, t, Enter(id)))
  {
    var s' := At(s, t, Enter(id));
    forall i | i in s'.table ensures CountedExactly(s', i) {
      SharersAfter(s.pcs, t, Enter(id), s.table[i]);
      assert CountedExactly(s, i) && Sharers(s'.pcs, s.table[i]) == Sharers(s.pcs, s.table[i]);
    }
  }

  lemma NextKeepsInv(s: State, x: Label)
    requires Inv(s) && Enabled(s, x)
    ensures Inv(Next(s, x))
  {
    match x
    case Call(t, id) => CallKeepsInv(s, t, id);
    case Run(t) =>
      StepGuard(s, t);
      StepTable(s, t);
      StepOwner(s, t);
      if s.pcs[t].Find? {
        FindShares(s, t);
        FindCounts(s, t);
      } else if s.pcs[t].Look? {
        LookShares(s, t);
        LookCounts(s, t);
      } else {
        OtherShares(s, t);
        OtherCounts(s, t);
      }
  }

  // ---- Runs ----

  function Exec(s: State, run: seq<Label>): State
    decreases |run|
  {
    if run == [] then s else Exec(Next(s, run[0]), run[1..])
  }

  ghost predicate IsRun(s: State, run: seq<Label>)
    decreases |run|
  {
    run == [] || (Enabled(s, run[0]) && IsRun(Next(s, run[0]), run[1..]))
  }

  lemma {:induction false} RunKeepsInv(s: State, run: seq<Label>)
    requires Inv(s) && IsRun(s, run)
    ensures Inv(Exec(s, run))
    decreases |run|
  {
    if run == [] {
    } else {
      NextKeepsInv(s, run[0]);
      RunKeepsInv(Next(s, run[0]), run[1..]);
    }
  }

  /** The sessions that hold or wait on an id. */
  function Users(pcs: map<Session, Pc>, id: Id): set<Session> {
    set t | t in pcs && Counted(pcs[t]) && pcs[t].id == id
  }

  lemma UsersAreSharers(s: State, id: Id)
    requires Shared(s) && TableInv(s) && CountInv(s)
    ensures id in s.table <==> Users(s.pcs, id) != {}
    ensures id in s.table ==> CountedExactly(s, id) && Users(s.pcs, id) == Sharers(s.pcs, s.table[id])
  {
    assert forall t | t in s.pcs && Counted(s.pcs[t]) :: s.pcs[t].id in s.table;
    if id in s.table {
      assert CountedExactly(s, id) && Users(s.pcs, id) == Sharers(s.pcs, s.table[id]);
    }
  }

  /** In every interleaving: sessions that hold or wait on an id share the table's
      entry, its count is their number, and the table has no other entries. */
  lemma EntriesAreShared(run: seq<Label>, id: Id)
    requires IsRun(INITIAL, run)
    ensures var z := Exec(INITIAL, run);
            && (id in z.table <==> Users(z.pcs, id) != {})
            && (id in z.table ==> z.table[id] in z.heap && z.heap[z.table[id]].refs == |Users(z.pcs, id)|)
            && (id in z.table ==> forall t | t in Users(z.pcs, id) :: z.pcs[t].e == z.table[id])
  {
    RunKeepsInv(INITIAL, run);
    UsersAreSharers(Exec(INITIAL, run), id);
  }

  // ---- What the locker provides ----

  /** A session owns its id from the return of `Lock` until `Unlock` uncounts it. */
  predicate Owns(pc: Pc) {
    pc.Hold? || pc.Exit? || pc.Look?
  }

  function Owners(pcs: map<Session, Pc>): map<Session, Id> {
    map t | t in pcs && Owns(pcs[t]) :: pcs[t].id
  }

  /** The abstract keyed lock: a session takes an id nobody owns, or gives its own up. */
  ghost predicate KeyedLockStep<T>(m: map<T, Id>, m': map<T, Id>, t: T, id: Id) {
    || m' == m
    || (t !in m && id !in m.Values && m' == m[t := id])
    || (t in m && m[t] == id && m' == m - {t})
  }

  /** Two sessions never own the same id, also while a dropped entry is still locked. */
  lemma MutualExclusion(run: seq<Label>, t: Session, u: Session)
    requires IsRun(INITIAL, run)
    requires var m := Owners(Exec(INITIAL, run).pcs); t in m && u in m && m[t] == m[u]
    ensures t == u
  {
    RunKeepsInv(INITIAL, run);
  }

  lemma OwnersAfter(pcs: map<Session, Pc>, t: Session, pc: Pc)
    ensures Owners(pcs[t := pc]) == if Owns(pc) then Owners(pcs)[t := pc.id] else Owners(pcs) - {t}
  {
  }

  /** A session that gets the entry's mutex finds its id owned by nobody. */
  lemma AcquireFindsIdFree(s: State, t: Session)
    requires Inv(s) && CanStep(s, t) && s.pcs[t].Wait?
    ensures s.pcs[t].id !in Owners(s.pcs).Values
  {
    forall u | u in s.pcs && Owns(s.pcs[u]) ensures s.pcs[u].id != s.pcs[t].id {
      assert Counted(s.pcs[u]) && Locking(s.pcs[u]);
    }
  }

  lemma StepOwns(s: State, t: Session)
    requires Inv(s) && CanStep(s, t)
    ensures var pc, pc' := s.pcs[t], Step(s, t).pcs[t];
            && Step(s, t).pcs == s.pcs[t := pc']
            && (pc.Wait? ==> !Owns(pc) && Owns(pc') && pc'.id == pc.id)
            && (pc.Look? ==> Owns(pc) && !Owns(pc'))
            && (!pc.Wait? && !pc.Look? ==> Owns(pc) == Owns(pc') && (Owns(pc) ==> pc.id == pc'.id))
  {
  }

  lemma MoveIsKeyedLockStep(pcs: map<Session, Pc>, t: Session, pc: Pc, id: Id)
    requires t in pcs && (Owns(pcs[t]) ==> pcs[t].id == id) && (Owns(pc) ==> pc.id == id)
    requires !Owns(pcs[t]) && Owns(pc) ==> id !in Owners(pcs).Values
    ensures KeyedLockStep(Owners(pcs), Owners(pcs[t := pc]), t, id)
  {
    OwnersAfter(pcs, t, pc);
    var m := Owners(pcs);
    if Owns(pcs[t]) == Owns(pc) {
      assert Owners(pcs[t := pc]) == m;
    } else {
      assert t in m <==> Owns(pcs[t]);
    }
  }

  /** Every step of a session is a step of the abstract keyed lock on its own id;
      it takes the id exactly when it gets the entry's mutex. */
  lemma RefinesKeyedLock(s: State, t: Session)
    requires Inv(s) && CanStep(s, t)
    ensures KeyedLockStep(Owners(s.pcs), Owners(Step(s, t).pcs), t, s.pcs[t].id)
    ensures t in Owners(Step(s, t).pcs) && t !in Owners(s.pcs) <==> s.pcs[t].Wait?
  {
    StepOwns(s, t);
    if s.pcs[t].Wait? {
      AcquireFindsIdFree(s, t);
    }
    MoveIsKeyedLockStep(s.pcs, t, Step(s, t).pcs[t], s.pcs[t].id);
  }

  /** The states of the abstract keyed lock that a run passes through. */
  function Trace(s: State, run: seq<Label>): seq<map<Session, Id>>
    decreases |run|
  {
    [Owners(s.pcs)] + if run == [] then [] else Trace(Next(s, run[0]), run[1..])
  }

  lemma {:induction false} TraceIsAsLong(s: State, run: seq<Label>)
    ensures |Trace(s, run)| == |run| + 1
    ensures Trace(s, run)[|run|] == Owners(Exec(s, run).pcs)
    decreases |run|
  {
    if run == [] {
    } else {
      TraceIsAsLong(Next(s, run[0]), run[1..]);
    }
  }

  ghost predicate IsKeyedLockMove(m: map<Session, Id>, m': map<Session, Id>) {
    exists t, id :: KeyedLockStep(m, m', t, id)
  }

  ghost predicate IsKeyedLockRun(trace: seq<map<Session, Id>>) {
    forall i | 0 < i < |trace| :: IsKeyedLockMove(trace[i - 1], trace[i])
  }

  lemma NextIsKeyedLockMove(s: State, x: Label)
    requires Inv(s) && Enabled(s, x)
    ensures IsKeyedLockMove(Owners(s.pcs), Owners(Next(s, x).pcs))
  {
    match x
    case Call(t, id) =>
      OwnersAfter(s.pcs, t, Enter(id));
      assert Owners(s.pcs) - {t} == Owners(s.pcs);
      assert KeyedLockStep(Owners(s.pcs), Owners(Next(s, x).pcs), t, id);
    case Run(t) => RefinesKeyedLock(s, t);
  }

  lemma {:induction false} TraceIsKeyedLockRun(s: State, run: seq<Label>)
    requires Inv(s) && IsRun(s, run)
    ensures IsKeyedLockRun(Trace(s, run))
    decreases |run|
  {
    if run == [] {
    } else {
      NextKeepsInv(s, run[0]);
      NextIsKeyedLockMove(s, run[0]);
      TraceIsKeyedLockRun(Next(s, run[0]), run[1..]);
      var rest := Trace(Next(s, run[0]), run[1..]);
      assert Trace(s, run) == [Owners(s.pcs)] + rest;
      assert rest[0] == Owners(Next(s, run[0]).pcs);
      forall i | 0 < i < |Trace(s, run)| ensures IsKeyedLockMove(Trace(s, run)[i - 1], Trace(s, run)[i]) {
        if i > 1 {
          assert IsKeyedLockMove(rest[i - 2], rest[i - 1]);
        }
      }
    }
  }

  /** Every run of the locker, however its sessions interleave, is a run of the
      abstract keyed lock that starts with nothing owned. */
  lemma RunsRefineKeyedLock(run: seq<Label>)
    requires IsRun(INITIAL, run)
    ensures IsKeyedLockRun(Trace(INITIAL, run))
    ensures |Trace(INITIAL, run)| == |run| + 1 && Trace(INITIAL, run)[0] == map[]
    ensures Trace(INITIAL, run)[|run|] == Owners(Exec(INITIAL, run).pcs)
  {
    TraceIsKeyedLockRun(INITIAL, run);
    TraceIsAsLong(INITIAL, run);
  }

  /** `Unlock` always finds the entry that `Lock` locked, and unlocks it as its owner. */
  lemma UnlockFindsItsEntry(s: State, t: Session)
    requires Inv(s) && t in s.pcs
    ensures s.pcs[t].Look? ==> s.pcs[t].id in s.table && s.table[s.pcs[t].id] == s.pcs[t].e
    ensures s.pcs[t].Open? ==>
              s.pcs[t].opens == s.pcs[t].e && s.pcs[t].e in s.heap && s.heap[s.pcs[t].e].owner == Some(t)
  {
  }

  /** Nobody is left behind: if no step inside `Lock` or `Unlock` is possible, then
      every unfinished session has its lock, or waits for one that another session has. */
  lemma NoLostWakeup(s: State, t: Session)
    requires Inv(s)
    requires forall u | CanStep(s, u) :: s.pcs[u].Hold?
    requires t in s.pcs && s.pcs[t] != Gone && !s.pcs[t].Hold?
    ensures s.pcs[t].Wait?
    ensures exists u :: u in s.pcs && s.pcs[u].Hold? && s.pcs[u].id == s.pcs[t].id
  {
    if s.guard.Some? {
      assert HasGuard(s.pcs[s.guard.value]);
      assert CanStep(s, s.guard.value);
    }
    assert !CanStep(s, t);
    var e := s.pcs[t].e;
    var u := s.heap[e].owner.value;
    assert CanStep(s, u);
    assert s.pcs[u].Hold? && s.pcs[u].id == s.pcs[t].id;
  }

  // ---- Every call comes to an end, through its lock ----

  /** The steps left to a session. */
  function StepsLeft(pc: Pc): nat {
    match pc
    case Enter(_) => 9
    case Find(_) => 8
    case Leave(_, _) => 7
    case Wait(_, _) => 6
    case Hold(_, _) => 5
    case Exit(_, _) => 4
    case Look(_, _) => 3
    case Part(_, _, _) => 2
    case Open(_, _, _) => 1
    case Gone => 0
  }

  lemma TableStepMovesOn(s: State, t: Session)
    requires Inv(s) && CanStep(s, t) && (s.pcs[t].Look? || s.pcs[t].Find?)
    ensures var s' := Step(s, t);
            && s'.pcs == s.pcs[t := s'.pcs[t]]
            && StepsLeft(s'.pcs[t]) == StepsLeft(s.pcs[t]) - 1 && s'.pcs[t].id == s.pcs[t].id
  {
    assert s.pcs[t].Look? ==> CountedExactly(s, s.pcs[t].id);
  }

  /** A step takes a session one step on, with the same id, and leaves the others. */
  lemma StepMovesOn(s: State, t: Session)
    requires Inv(s) && CanStep(s, t)
    ensures var s' := Step(s, t);
            && s'.pcs.Keys == s.pcs.Keys && (forall u | u in s.pcs && u != t :: s'.pcs[u] == s.pcs[u])
            && StepsLeft(s'.pcs[t]) == StepsLeft(s.pcs[t]) - 1
            && (s'.pcs[t] != Gone ==> s'.pcs[t].id == s.pcs[t].id)
  {
    if s.pcs[t].Look? || s.pcs[t].Find? {
      TableStepMovesOn(s, t);
    }
  }

  ghost function TotalLeft(pcs: map<Session, Pc>): nat {
    if pcs == map[] then 0
    else
      var t :| t in pcs;
      StepsLeft(pcs[t]) + TotalLeft(pcs - {t})
  }

  lemma {:induction false} TotalWithout(pcs: map<Session, Pc>, t: Session)
    requires t in pcs
    ensures TotalLeft(pcs) == StepsLeft(pcs[t]) + TotalLeft(pcs - {t})
    decreases |pcs|
  {
    var u :| u in pcs && TotalLeft(pcs) == StepsLeft(pcs[u]) + TotalLeft(pcs - {u});
    if u == t {
    } else {
      TotalWithout(pcs - {u}, t);
      TotalWithout(pcs - {t}, u);
      assert pcs - {u} - {t} == pcs - {t} - {u};
    }
  }

  /** Nothing is locked, counted or waited for. */
  ghost predicate AllGone(s: State) {
    && (forall t | t in s.pcs :: s.pcs[t] == Gone)
    && s.table == map[] && s.guard == None
    && (forall e | e in s.heap :: s.heap[e].owner == None)
  }

  /** Whoever cannot step waits for a holder, who can. */
  lemma HolderCanStep(s: State, t: Session)
    requires Inv(s) && t in s.pcs && s.pcs[t] != Gone
    ensures exists u :: CanStep(s, u)
  {
    if !CanStep(s, t) && forall u | CanStep(s, u) :: s.pcs[u].Hold? {
      NoLostWakeup(s, t);
      var u :| u in s.pcs && s.pcs[u].Hold?;
      assert CanStep(s, u);
    }
  }

  /** A state in which no session can step has none left. */
  lemma StuckMeansAllGone(s: State)
    requires Inv(s) && forall t :: !CanStep(s, t)
    ensures AllGone(s)
  {
    forall t | t in s.pcs ensures s.pcs[t] == Gone {
      if s.pcs[t] != Gone {
        assert !CanStep(s, t);
        HolderCanStep(s, t);
      }
    }
    forall id ensures id !in s.table {
      assert Users(s.pcs, id) == {};
      UsersAreSharers(s, id);
    }
  }

  lemma StepUsesOne(s: State, t: Session)
    requires Inv(s) && CanStep(s, t)
    ensures TotalLeft(Step(s, t).pcs) + 1 == TotalLeft(s.pcs)
  {
    var s' := Step(s, t);
    StepMovesOn(s, t);
    TotalWithout(s.pcs, t);
    TotalWithout(s'.pcs, t);
    assert s'.pcs - {t} == s.pcs - {t};
  }

  /** Sessions that are left to run, in any order, all finish, after as many steps as
      they have left together; then the table is empty and no entry is locked. */
  lemma {:induction false} SessionsFinish(s: State, run: seq<Label>)
    requires Inv(s) && IsRun(s, run) && (forall x | x in run :: x.Run?)
    ensures |run| + TotalLeft(Exec(s, run).pcs) == TotalLeft(s.pcs)
    ensures (forall t :: !CanStep(Exec(s, run), t)) ==> AllGone(Exec(s, run))
    decreases |run|
  {
    if run == [] {
      if forall t :: !CanStep(s, t) {
        StuckMeansAllGone(s);
      }
    } else {
      assert run[0] in run;
      NextKeepsInv(s, run[0]);
      StepUsesOne(s, run[0].t);
      SessionsFinish(Next(s, run[0]), run[1..]);
    }
  }

  /** The session owns the id in some state of the run. */
  ghost predicate OwnsOnce(s: State, run: seq<Label>, t: Session, id: Id)
    decreases |run|
  {
    || (t in s.pcs && Owns(s.pcs[t]) && s.pcs[t].id == id)
    || (run != [] && OwnsOnce(Next(s, run[0]), run[1..], t, id))
  }

  /** A session before its lock stays before it, or comes to own its id. */
  lemma NextComesToOwn(s: State, x: Label, t: Session)
    requires Inv(s) && Enabled(s, x) && t in s.pcs && StepsLeft(s.pcs[t]) > 5
    ensures var s' := Next(s, x);
            && t in s'.pcs && s'.pcs[t] != Gone && s'.pcs[t].id == s.pcs[t].id
            && (Owns(s'.pcs[t]) || StepsLeft(s'.pcs[t]) > 5)
  {
    if x.Run? {
      StepMovesOn(s, x.t);
    }
  }

  /** No call gets past its lock: a session that has finished has owned its id. */
  lemma {:induction false} FinishedSessionsOwned(s: State, run: seq<Label>, t: Session, id: Id)
    requires Inv(s) && IsRun(s, run)
    requires t in s.pcs && StepsLeft(s.pcs[t]) > 5 && s.pcs[t].id == id
    requires t in Exec(s, run).pcs && Exec(s, run).pcs[t] == Gone
    ensures OwnsOnce(s, run, t, id)
    decreases |run|
  {
    if run == [] {
    } else {
      NextKeepsInv(s, run[0]);
      NextComesToOwn(s, run[0], t);
      if !Owns(Next(s, run[0]).pcs[t]) {
        FinishedSessionsOwned(Next(s, run[0]), run[1..], t, id);
      }
    }
  }
}
