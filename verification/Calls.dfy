/** Calls that follow the CSI rule of one call in flight per volume: what a call
    finds out about its volume stays true until the call itself changes it. */
module Calls {
  import opened Options
  import opened Records
  import opened Protocol
  import opened Safety

  /** Every call in flight serves a volume of its own. */
  ghost predicate OneCallPerVolume(s: State) {
    forall t, u | t in s.threads && u in s.threads && t != u && Serves(s.threads[t]).Some? ::
      Serves(s.threads[t]) != Serves(s.threads[u])
  }

  /** What the publish in flight for a volume knows about its link once it has
      given the volume's lock back. */
  ghost predicate CallKnows(s: State, pc: Pc) {
    && (pc.Publishing? && pc.p.Validate? ==> Link(s.db, pc.r.volume) == Some(pc.p.l))
    && (pc.Publishing? && pc.p.Mount? ==> Link(s.db, pc.r.volume) == Some(pc.p.l))
  }

  ghost predicate CallInv(cfg: Config, s: State) {
    && Inv(cfg, s)
    && OneCallPerVolume(s)
    && (forall t | t in s.threads :: CallKnows(s, s.threads[t]))
  }

  ghost predicate SameMount(s: State, s': State, v: VolumeId) {
    (v in s.mounts <==> v in s'.mounts) && (v in s.mounts ==> s'.mounts[v] == s.mounts[v])
  }

  /** A call stays with its volume until it ends. */
  lemma ServesOnlyShrinks(cfg: Config, s: State, pc: Pc, c: Choice)
    ensures var pc' := PcAfter(cfg, s, pc, c); Serves(pc') == Serves(pc) || Serves(pc') == None
  {
  }

  /** A step touches the link and the mount of no volume but the one it serves. */
  lemma StepLeavesOthers(cfg: Config, s: State, t: ThreadId, c: Choice, v: VolumeId)
    requires t in s.threads && Serves(s.threads[t]) != Some(v)
    ensures var s' := ThreadStep(cfg, s, t, c); SameVolume(s.db, s'.db, v) && SameMount(s, s', v)
  {
  }

  lemma OwnCallKnows(cfg: Config, s: State, t: ThreadId, c: Choice)
    requires t in s.threads && Knows(cfg, s, s.threads[t]) && CallKnows(s, s.threads[t])
    ensures CallKnows(ThreadStep(cfg, s, t, c), PcAfter(cfg, s, s.threads[t], c))
  {
  }

  lemma RunKeepsCalls(cfg: Config, s: State, t: ThreadId, c: Choice)
    requires CallInv(cfg, s) && CanRun(cfg, s, t, c)
    ensures CallInv(cfg, ThreadStep(cfg, s, t, c))
  {
    var s' := ThreadStep(cfg, s, t, c);
    RunKeepsInv(cfg, s, t, c);
    ServesOnlyShrinks(cfg, s, s.threads[t], c);
    forall u | u in s'.threads ensures CallKnows(s', s'.threads[u]) {
      if u == t {
        OwnCallKnows(cfg, s, t, c);
      } else if Serves(s.threads[u]).Some? {
        StepLeavesOthers(cfg, s, t, c, Serves(s.threads[u]).value);
      }
    }
  }

  lemma NextKeepsCalls(cfg: Config, s: State, e: Label)
    requires CallInv(cfg, s) && cfg.orderly && Enabled(cfg, s, e)
    ensures CallInv(cfg, Next(cfg, s, e))
  {
    var s' := Next(cfg, s, e);
    NextKeepsInv(cfg, s, e);
    match e
    case Run(t, c) => RunKeepsCalls(cfg, s, t, c);
    case Crash =>
    case _ =>
      forall u | u in s'.threads ensures CallKnows(s', s'.threads[u]) {
      }
  }

  // ---- From the link to the unlink of one call ----

  /** The call has linked its volume or found it linked, or is about to unlink it. */
  predicate BeforeUnlink(pc: Pc, v: VolumeId) {
    || (pc.Publishing? && pc.r.volume == v && (pc.p.UnlockLibrary? || pc.p.UnlockVolume? || pc.p.Validate? || pc.p.Mount?))
    || pc == Removing(v, RemoveLock)
    || pc == Removing(v, Unlink)
  }

  /** The thread is before its unlink in every state of the run. */
  ghost predicate StaysBeforeUnlink(cfg: Config, s: State, run: seq<Label>, t: ThreadId, v: VolumeId)
    decreases |run|
  {
    && t in s.threads && BeforeUnlink(s.threads[t], v)
    && (run != [] ==> StaysBeforeUnlink(cfg, Next(cfg, s, run[0]), run[1..], t, v))
  }

  lemma NextLeavesCall(cfg: Config, s: State, e: Label, t: ThreadId, v: VolumeId)
    requires CallInv(cfg, s) && Enabled(cfg, s, e)
    requires t in s.threads && BeforeUnlink(s.threads[t], v)
    requires var s' := Next(cfg, s, e); t in s'.threads && BeforeUnlink(s'.threads[t], v)
    ensures var s' := Next(cfg, s, e); SameVolume(s.db, s'.db, v) && SameMount(s, s', v)
  {
    if e.Run? && e.t != t {
      StepLeavesOthers(cfg, s, e.t, e.choice, v);
    }
  }

  /** Whatever else runs, the record and the mount of a volume stay as they are
      while its call is before its unlink. */
  lemma {:induction false} CallKeepsItsVolume(cfg: Config, s: State, run: seq<Label>, t: ThreadId, v: VolumeId)
    requires CallInv(cfg, s) && cfg.orderly && IsRun(cfg, s, run) && StaysBeforeUnlink(cfg, s, run, t, v)
    ensures var z := Exec(cfg, s, run); CallInv(cfg, z) && SameVolume(s.db, z.db, v) && SameMount(s, z, v)
    decreases |run|
  {
    if run == [] {
    } else {
      NextKeepsCalls(cfg, s, run[0]);
      NextLeavesCall(cfg, s, run[0], t, v);
      CallKeepsItsVolume(cfg, Next(cfg, s, run[0]), run[1..], t, v);
    }
  }

  /** One link more, or one less, for one library. */
  ghost predicate LinksMove(db: Db, db': Db, l: LibraryId, v: VolumeId) {
    forall m ::
      && LinkedTo(db', m) == LinkedTo(db, m) + (if m == l then {v} else {})
      && VolumeCount(db', m) == VolumeCount(db, m) + (if m == l then 1 else 0)
  }

  lemma LinkStepMoves(db: Db, l: LibraryId, v: VolumeId, fromCache: bool, now: int)
    requires Consistent(db) && l != "" && v != "" && v !in db.volumes
    ensures LinksMove(db, LinkVolume(db, l, v, fromCache, now).value, l, v)
  {
    LinkVolumeKeeps(db, l, v, fromCache, now);
  }

  lemma UnlinkStepMoves(db: Db, v: VolumeId)
    requires Consistent(db) && v != "" && v in db.volumes
    ensures var back := UnlinkVolume(db, v).value.db;
            LinksMove(back, db, db.volumes[v].libraryId, v) && v !in back.volumes
  {
    var l := db.volumes[v].libraryId;
    UnlinkVolumeKeeps(db, v);
    assert v in LinkedTo(db, l);
    forall m ensures LinkedTo(db, m) == LinkedTo(UnlinkVolume(db, v).value.db, m) + (if m == l then {v} else {}) {
    }
  }

  /** A publish that made its volume's link and rolls back takes back exactly that
      link, whatever other calls, timers and stops do between the two steps: both
      move one link and one count of the same library, and nothing else. */
  lemma RollbackUndoesItsLink(cfg: Config, s: State, t: ThreadId, c: Choice, run: seq<Label>, d: Choice)
    requires CallInv(cfg, s) && cfg.orderly && CanRun(cfg, s, t, c)
    requires s.threads[t].Publishing? && s.threads[t].p.LinkUp? && !c.fail
    requires var s1, v := Next(cfg, s, Run(t, c)), s.threads[t].r.volume;
             && IsRun(cfg, s1, run) && StaysBeforeUnlink(cfg, s1, run, t, v)
             && CanRun(cfg, Exec(cfg, s1, run), t, d) && !d.fail
             && Exec(cfg, s1, run).threads[t] == Removing(v, Unlink)
    ensures var v, l := s.threads[t].r.volume, s.threads[t].p.l;
            var s1 := Next(cfg, s, Run(t, c));
            var z := Exec(cfg, s1, run);
            var z' := Next(cfg, z, Run(t, d));
            && v !in s.db.volumes && Link(s1.db, v) == Some(l)
            && v in z.db.volumes && z.db.volumes[v] == s1.db.volumes[v]
            && v !in z'.db.volumes
            && LinksMove(s.db, s1.db, l, v) && LinksMove(z'.db, z.db, l, v)
            && z'.threads[t] == if cfg.immediate then Cleaning(l, CleanLock, ToRemove(v)) else Removing(v, ScheduleLock(l))
  {
    var r, p := s.threads[t].r, s.threads[t].p;
    assert Knows(cfg, s, s.threads[t]);
    LinkStepMoves(s.db, p.l, r.volume, p.fromCache, c.now);
    RunKeepsCalls(cfg, s, t, c);
    var s1 := Next(cfg, s, Run(t, c));
    CallKeepsItsVolume(cfg, s1, run, t, r.volume);
    UnlinkStepMoves(Exec(cfg, s1, run).db, r.volume);
  }

  /** From a failed validation or an unmount to the unlink that follows it, whatever
      runs in between, the volume ends unlinked and still mounted exactly when it was
      mounted and either the validation was the one that failed or the unmount only
      pretended to succeed. */
  lemma UnlinkStrandsIff(cfg: Config, s: State, t: ThreadId, c: Choice, run: seq<Label>, d: Choice, v: VolumeId)
    requires CallInv(cfg, s) && cfg.orderly && CanRun(cfg, s, t, c)
    requires s.threads[t] == Removing(v, Unmount) ||
             (s.threads[t].Publishing? && s.threads[t].p.Validate? && s.threads[t].r.volume == v)
    requires var s1 := Next(cfg, s, Run(t, c));
             && IsRun(cfg, s1, run) && StaysBeforeUnlink(cfg, s1, run, t, v)
             && CanRun(cfg, Exec(cfg, s1, run), t, d) && !d.fail
             && Exec(cfg, s1, run).threads[t] == Removing(v, Unlink)
    requires s.threads[t].Removing? || Next(cfg, s, Run(t, c)).threads[t] == Removing(v, RemoveLock)
    ensures var z' := Next(cfg, Exec(cfg, Next(cfg, s, Run(t, c)), run), Run(t, d));
            && v !in z'.db.volumes
            && (v in z'.mounts <==> v in s.mounts && (s.threads[t].Publishing? || c.silent))
  {
    var s1 := Next(cfg, s, Run(t, c));
    assert Knows(cfg, s, s.threads[t]);
    RunKeepsCalls(cfg, s, t, c);
    CallKeepsItsVolume(cfg, s1, run, t, v);
  }
}
