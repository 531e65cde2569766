/** The strings under which the manager's locks are kept in one table. */
module LockNames {
  import opened Options
  import opened Records
  import opened Protocol
  import opened Safety
  import Locker

  const PREFIX := "volume:"

  function VolumeLockKey(v: VolumeId): string {
    PREFIX + v
  }

  predicate IsHexDigest(l: LibraryId) {
    |l| == 64 && forall c | c in l :: '0' <= c <= '9' || 'a' <= c <= 'f'
  }

  /** The table key of a volume lock or a library lock. */
  function Name(k: Key): string
    requires k.VolumeKey? || k.LibraryKey?
  {
    match k
    case VolumeKey(v) => VolumeLockKey(v)
    case LibraryKey(l) => l
  }

  lemma VolumeNamesAreNotDigests(k: Key)
    requires k.VolumeKey?
    ensures !IsHexDigest(Name(k))
  {
    assert Name(k)[0] == 'v' && Name(k)[0] in Name(k);
  }

  /** Volume IDs are arbitrary, yet no two locks ever share an entry of the table. */
  lemma NamesNeverCollide(k: Key, m: Key)
    requires k.VolumeKey? || (k.LibraryKey? && IsHexDigest(k.library))
    requires m.VolumeKey? || (m.LibraryKey? && IsHexDigest(m.library))
    ensures Name(k) == Name(m) <==> k == m
  {
    if k.VolumeKey? {
      VolumeNamesAreNotDigests(k);
    }
    if m.VolumeKey? {
      VolumeNamesAreNotDigests(m);
    }
    if k.VolumeKey? && m.VolumeKey? {
      assert Name(k)[|PREFIX|..] == k.volume && Name(m)[|PREFIX|..] == m.volume;
    }
  }

  // ---- The protocol's lock table is the keyed lock ----

  /** A session of the locker: one thread that holds one key. */
  type Session = (ThreadId, Key)

  /** The locks kept in the locker's table; the scheduler's mutex is not one of them. */
  function SessionsOf(locks: map<Key, ThreadId>): map<Session, string> {
    map k | k in locks && !k.SchedulerMutex? :: (locks[k], k) := Name(k)
  }

  /** Digests come from the registry as 64 hexadecimal digits. */
  predicate NamesDigest(k: Key) {
    k.LibraryKey? ==> IsHexDigest(k.library)
  }

  lemma FreeKeyIsFreeName(locks: map<Key, ThreadId>, k: Key)
    requires k !in locks && !k.SchedulerMutex? && NamesDigest(k)
    requires forall m | m in locks :: NamesDigest(m)
    ensures Name(k) !in SessionsOf(locks).Values
  {
    forall m | m in locks && !m.SchedulerMutex? ensures Name(m) != Name(k) {
      NamesNeverCollide(m, k);
    }
  }

  /** Taking a key is an acquisition of its name by a new session. */
  lemma TakeIsKeyedLockStep(locks: map<Key, ThreadId>, t: ThreadId, k: Key)
    requires k !in locks && NamesDigest(k) && (forall m | m in locks :: NamesDigest(m))
    ensures var m, m' := SessionsOf(locks), SessionsOf(locks[k := t]);
            if k.SchedulerMutex? then m' == m
            else (t, k) !in m && (t, k) in m' && Locker.KeyedLockStep(m, m', (t, k), Name(k))
  {
    if k.SchedulerMutex? {
      assert SessionsOf(locks[k := t]) == SessionsOf(locks);
    } else {
      FreeKeyIsFreeName(locks, k);
      assert SessionsOf(locks[k := t]) == SessionsOf(locks)[(t, k) := Name(k)];
    }
  }

  /** Giving a key back is the release by the session that has it. */
  lemma DropIsKeyedLockStep(locks: map<Key, ThreadId>, t: ThreadId, k: Key)
    requires k in locks && locks[k] == t
    ensures var m, m' := SessionsOf(locks), SessionsOf(locks - {k});
            if k.SchedulerMutex? then m' == m
            else (t, k) in m && (t, k) !in m' && Locker.KeyedLockStep(m, m', (t, k), Name(k))
  {
    if k.SchedulerMutex? {
      assert SessionsOf(locks - {k}) == SessionsOf(locks);
    } else {
      assert SessionsOf(locks - {k}) == SessionsOf(locks) - {(t, k)};
    }
  }

  /** The key whose lock a step takes or gives back. */
  function Moved(pc: Pc): Option<Key> {
    if Wants(pc).Some? then Wants(pc) else Drops(pc)
  }

  /** Every step of the protocol is, on the locker's table, an acquisition or a release
      of one name by the session of its thread and key, or leaves the table alone. */
  lemma StepIsKeyedLockStep(cfg: Config, s: State, t: ThreadId, c: Choice)
    requires Inv(cfg, s) && CanRun(cfg, s, t, c)
    requires forall k | k in s.locks || Wants(s.threads[t]) == Some(k) :: NamesDigest(k)
    ensures var k := Moved(s.threads[t]);
            var m, m' := SessionsOf(s.locks), SessionsOf(ThreadStep(cfg, s, t, c).locks);
            if k.None? || k.value.SchedulerMutex? then m' == m
            else
              && Locker.KeyedLockStep(m, m', (t, k.value), Name(k.value))
              && ((t, k.value) in m' <==> Wants(s.threads[t]).Some?)
              && ((t, k.value) in m <==> Wants(s.threads[t]).None?)
  {
    var pc := s.threads[t];
    if Wants(pc).Some? {
      TakeIsKeyedLockStep(s.locks, t, Wants(pc).value);
    } else if Drops(pc).Some? {
      StepHolds(cfg, s, pc, c);
      HeldLockIsOwned(s, t, Drops(pc).value);
      DropIsKeyedLockStep(s.locks, t, Drops(pc).value);
    }
  }
}
