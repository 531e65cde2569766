/** The digest cache in front of the registry. */
module ImageCache {
  import opened Options
  import R = ImageReference

  datatype CacheEntry = CacheEntry(validUntil: int, value: string)

  type Entries = map<string, CacheEntry>

  // ---- The two critical sections ----

  function Write(cache: Entries, image: string, digest: string, validUntil: int): Entries {
    cache[image := CacheEntry(validUntil, digest)]
  }

  predicate Expired(cache: Entries, image: string, now: int) {
    image in cache && now > cache[image].validUntil
  }

  /** An expired entry is deleted on the way. */
  function AfterProbe(cache: Entries, image: string, now: int): Entries {
    if Expired(cache, image, now) then cache - {image} else cache
  }

  /** The digest found, blank when there is none. */
  function Probe(cache: Entries, image: string, now: int): string {
    if image in cache && !Expired(cache, image, now) then cache[image].value else ""
  }

  /** Caching the digest of one request never shows up under another. */
  lemma RequestsNeverShareEntries(a: R.Library, b: R.Library, cache: Entries, digest: string, validUntil: int, now: int)
    requires R.Plain(a) && R.Plain(b)
    requires a.registry != b.registry || a.name != b.name || a.version != b.version
    ensures Probe(Write(cache, R.Image(a), digest, validUntil), R.Image(b), now) == Probe(cache, R.Image(b), now)
  {
    R.ImageDeterminesRequest(a, b);
  }

  // ---- The cache object ----

  class ImageCache {
    const ttl: int
    var cache: Entries

    constructor (ttl: int)
      ensures this.ttl == ttl && cache == map[]
    {
      this.ttl := ttl;
      cache := map[];
    }

    method CacheDigest(image: string, digest: string, now: int)
      modifies this
      ensures cache == Write(old(cache), image, digest, now + ttl)
      ensures image in cache && cache[image] == CacheEntry(now + ttl, digest)
      ensures forall i | i != image :: (i in cache <==> i in old(cache)) && (i in cache ==> cache[i] == old(cache)[i])
    {
      cache := cache[image := CacheEntry(now + ttl, digest)];
    }

    method DigestFromCache(image: string, now: int) returns (digest: string)
      modifies this
      ensures digest == Probe(old(cache), image, now) && cache == AfterProbe(old(cache), image, now)
      ensures image in old(cache) && now <= old(cache)[image].validUntil ==>
                digest == old(cache)[image].value && cache == old(cache)
      ensures image in old(cache) && now > old(cache)[image].validUntil ==> digest == "" && cache == old(cache) - {image}
      ensures image !in old(cache) ==> digest == "" && cache == old(cache)
    {
      if image !in cache {
        return "";
      }
      var entry := cache[image];
      if now > entry.validUntil {
        cache := cache - {image};
        return "";
      }
      digest := entry.value;
    }

    /** `parses` says whether the image is a valid reference, `remote` what the
        registry answers, and `later` is the clock when the answer is cached. */
    method FetchDigest(image: string, parses: bool, pull: bool, now: int, remote: Option<string>, later: int)
      returns (r: Option<string>)
      modifies this
      ensures !parses ==> r == None && cache == old(cache)
      ensures parses && !pull && Probe(old(cache), image, now) != "" ==>
                r == Some(Probe(old(cache), image, now)) && cache == old(cache)
      ensures parses && (pull || Probe(old(cache), image, now) == "") ==> r == remote
      // A valid entry is served whatever the registry says, and a fetch that asked leaves one.
      ensures parses && !pull && image in old(cache) && now <= old(cache)[image].validUntil && old(cache)[image].value != "" ==>
                r == Some(old(cache)[image].value)
      ensures parses && pull && remote.Some? ==>
                image in cache && cache[image] == CacheEntry(later + ttl, remote.value)
      // A failed fetch loses nothing but the expired entry it looked at.
      ensures r.None? ==> (cache == old(cache) <==> !(parses && !pull && Expired(old(cache), image, now)))
      ensures r.None? ==> forall i, n | n >= now :: Probe(cache, i, n) == Probe(old(cache), i, n)
      ensures r.Some? && r == remote && (pull || Probe(old(cache), image, now) == "") ==>
                cache == Write(old(cache), image, r.value, later + ttl)
    {
      if !parses {
        return None;
      }
      if !pull {
        var cached := DigestFromCache(image, now);
        if cached != "" {
          return Some(cached);
        }
      }
      if remote.None? {
        return None;
      }
      CacheDigest(image, remote.value, later);
      r := remote;
    }
  }

  // ---- Concurrent fetches ----

  /** What a finished fetch returned: a cached digest with the clock value its entry
      was stamped with and the one it was checked against, or a registry answer. */
  datatype Outcome = Cached(digest: string, stamp: int, checked: int) | Fresh(digest: string) | Failed

  datatype Pc =
    | ReadClock
    | Look(now: int)
    | Ask
    | Stamp(digest: string)
    | Put(digest: string, stamp: int)
    | Done(outcome: Outcome)

  datatype Fetch = Fetch(image: string, pc: Pc)

  /** `answers` remembers what the registry returned, for which image and when. */
  datatype Answer = Answer(image: string, digest: string, at: int)

  datatype State = State(clock: int, cache: Entries, fetches: map<nat, Fetch>, answers: seq<Answer>)

  datatype Label = Tick(d: nat) | Begin(t: nat, image: string, pull: bool) | Run(t: nat, answer: Option<string>)

  predicate Enabled(s: State, e: Label) {
    match e
    case Tick(_) => true
    case Begin(t, _, _) => t !in s.fetches
    case Run(t, _) => t in s.fetches
  }

  function At(s: State, t: nat, f: Fetch): State {
    s.(fetches := s.fetches[t := f])
  }

  /** The clock is read outside the mutex, so other fetches may write in between. */
  function Step(ttl: int, s: State, t: nat, answer: Option<string>): State
    requires t in s.fetches
  {
    var f := s.fetches[t];
    match f.pc
    case ReadClock => At(s, t, f.(pc := Look(s.clock)))
    case Look(now) =>
      var digest := Probe(s.cache, f.image, now);
      var s' := s.(cache := AfterProbe(s.cache, f.image, now));
      if digest != "" then At(s', t, f.(pc := Done(Cached(digest, s.cache[f.image].validUntil - ttl, now))))
      else At(s', t, f.(pc := Ask))
    case Ask =>
      if answer.None? then At(s, t, f.(pc := Done(Failed)))
      else At(s.(answers := s.answers + [Answer(f.image, answer.value, s.clock)]), t, f.(pc := Stamp(answer.value)))
    case Stamp(digest) => At(s, t, f.(pc := Put(digest, s.clock)))
    case Put(digest, stamp) =>
      At(s.(cache := Write(s.cache, f.image, digest, stamp + ttl)), t, f.(pc := Done(Fresh(digest))))
    case Done(_) => s
  }

  function Next(ttl: int, s: State, e: Label): State {
    match e
    case Tick(d) => s.(clock := s.clock + d)
    case Begin(t, image, pull) => At(s, t, Fetch(image, if pull then Ask else ReadClock))
    case Run(t, answer) => if t in s.fetches then Step(ttl, s, t, answer) else s
  }

  /** The registry returned this digest for exactly this image, no later than `limit`. */
  ghost predicate Answered(s: State, image: string, digest: string, limit: int) {
    exists i :: 0 <= i < |s.answers| && s.answers[i].image == image && s.answers[i].digest == digest && s.answers[i].at <= limit
  }

  ghost predicate FetchInv(ttl: int, s: State, f: Fetch) {
    match f.pc
    case ReadClock | Ask => true
    case Look(now) => now <= s.clock
    case Stamp(digest) => Answered(s, f.image, digest, s.clock)
    case Put(digest, stamp) => Answered(s, f.image, digest, stamp) && stamp <= s.clock
    case Done(Cached(digest, stamp, checked)) =>
      Answered(s, f.image, digest, stamp) && checked - stamp <= ttl && checked <= s.clock
    case Done(Fresh(digest)) => Answered(s, f.image, digest, s.clock)
    case Done(Failed) => true
  }

  ghost predicate Inv(ttl: int, s: State) {
    && (forall image | image in s.cache ::
          var e := s.cache[image]; Answered(s, image, e.value, e.validUntil - ttl) && e.validUntil - ttl <= s.clock)
    && (forall t | t in s.fetches :: FetchInv(ttl, s, s.fetches[t]))
  }

  /** Answers are never forgotten. */
  lemma AnswersGrow(s: State, s': State, image: string, digest: string, limit: int, limit': int)
    requires s.answers <= s'.answers && limit <= limit'
    requires Answered(s, image, digest, limit)
    ensures Answered(s', image, digest, limit')
  {
    var i :| 0 <= i < |s.answers| && s.answers[i].image == image && s.answers[i].digest == digest && s.answers[i].at <= limit;
    assert s'.answers[i] == s.answers[i];
  }

  lemma FetchInvIsStable(ttl: int, s: State, s': State, f: Fetch)
    requires s.answers <= s'.answers && s.clock <= s'.clock && FetchInv(ttl, s, f)
    ensures FetchInv(ttl, s', f)
  {
    match f.pc
    case Stamp(digest) => AnswersGrow(s, s', f.image, digest, s.clock, s'.clock);
    case Put(digest, stamp) => AnswersGrow(s, s', f.image, digest, stamp, stamp);
    case Done(Cached(digest, stamp, _)) => AnswersGrow(s, s', f.image, digest, stamp, stamp);
    case Done(Fresh(digest)) => AnswersGrow(s, s', f.image, digest, s.clock, s'.clock);
    case _ =>
  }

  lemma OwnFetchInv(ttl: int, s: State, t: nat, answer: Option<string>)
    requires Inv(ttl, s) && t in s.fetches
    ensures var s' := Step(ttl, s, t, answer); FetchInv(ttl, s', s'.fetches[t])
  {
    var f, s' := s.fetches[t], Step(ttl, s, t, answer);
    assert FetchInv(ttl, s, f);
    if f.pc.Ask? && answer.Some? {
      assert s'.answers[|s.answers|] == Answer(f.image, answer.value, s.clock);
    } else if f.pc.Put? {
      AnswersGrow(s, s', f.image, f.pc.digest, f.pc.stamp, s.clock);
    } else if f.pc.Stamp? {
      AnswersGrow(s, s', f.image, f.pc.digest, s.clock, s.clock);
    } else if f.pc.Look? && Probe(s.cache, f.image, f.pc.now) != "" {
      var e := s.cache[f.image];
      AnswersGrow(s, s', f.image, e.value, e.validUntil - ttl, e.validUntil - ttl);
    } else {
      FetchInvIsStable(ttl, s, s', f);
    }
  }

  lemma StepKeepsInv(ttl: int, s: State, t: nat, answer: Option<string>)
    requires Inv(ttl, s) && t in s.fetches
    ensures Inv(ttl, Step(ttl, s, t, answer))
  {
    var s' := Step(ttl, s, t, answer);
    assert FetchInv(ttl, s, s.fetches[t]);
    forall image | image in s'.cache
      ensures var e := s'.cache[image]; Answered(s', image, e.value, e.validUntil - ttl) && e.validUntil - ttl <= s'.clock
    {
      var e := s'.cache[image];
      assert Answered(s, image, e.value, e.validUntil - ttl);
      AnswersGrow(s, s', image, e.value, e.validUntil - ttl, e.validUntil - ttl);
    }
    forall u | u in s'.fetches ensures FetchInv(ttl, s', s'.fetches[u]) {
      if u == t {
        OwnFetchInv(ttl, s, t, answer);
      } else {
        FetchInvIsStable(ttl, s, s', s.fetches[u]);
      }
    }
  }

  lemma NextKeepsInv(ttl: int, s: State, e: Label)
    requires Inv(ttl, s) && Enabled(s, e)
    ensures Inv(ttl, Next(ttl, s, e))
  {
    var s' := Next(ttl, s, e);
    match e
    case Run(t, answer) => StepKeepsInv(ttl, s, t, answer);
    case _ =>
      forall image | image in s'.cache
        ensures var e := s'.cache[image]; Answered(s', image, e.value, e.validUntil - ttl) && e.validUntil - ttl <= s'.clock
      {
        AnswersGrow(s, s', image, s.cache[image].value, s.cache[image].validUntil - ttl, s.cache[image].validUntil - ttl);
      }
      forall u | u in s.fetches ensures FetchInv(ttl, s', s.fetches[u]) {
        FetchInvIsStable(ttl, s, s', s.fetches[u]);
      }
  }

  function Exec(ttl: int, s: State, run: seq<Label>): State
    decreases |run|
  {
    if run == [] then s else Exec(ttl, Next(ttl, s, run[0]), run[1..])
  }

  ghost predicate IsRun(ttl: int, s: State, run: seq<Label>)
    decreases |run|
  {
    run == [] || (Enabled(s, run[0]) && IsRun(ttl, Next(ttl, s, run[0]), run[1..]))
  }

  lemma {:induction false} RunKeepsInv(ttl: int, s: State, run: seq<Label>)
    requires Inv(ttl, s) && IsRun(ttl, s, run)
    ensures Inv(ttl, Exec(ttl, s, run))
    decreases |run|
  {
    if run == [] {
    } else {
      NextKeepsInv(ttl, s, run[0]);
      RunKeepsInv(ttl, Next(ttl, s, run[0]), run[1..]);
    }
  }

  /** In every run with a clock that never goes back, with any number of concurrent
      fetches, a digest served from the cache is one that the registry returned for
      exactly that image, and its entry was stamped, after that answer, at most
      `ttl` before the clock value it was checked against. */
  lemma CachedDigestsAreFresh(ttl: int, start: int, run: seq<Label>, t: nat)
    requires var s := State(start, map[], map[], []); IsRun(ttl, s, run)
    requires var z := Exec(ttl, State(start, map[], map[], []), run);
             t in z.fetches && z.fetches[t].pc.Done? && z.fetches[t].pc.outcome.Cached?
    ensures var z := Exec(ttl, State(start, map[], map[], []), run);
            var f := z.fetches[t];
            var o := f.pc.outcome;
            o.checked - o.stamp <= ttl && o.checked <= z.clock && Answered(z, f.image, o.digest, o.stamp)
  {
    var s := State(start, map[], map[], []);
    RunKeepsInv(ttl, s, run);
    var z := Exec(ttl, s, run);
    assert FetchInv(ttl, z, z.fetches[t]);
  }

  /** Whatever a fetch returns, cached or fresh, the registry returned it for that image. */
  lemma ServedDigestsComeFromTheRegistry(ttl: int, start: int, run: seq<Label>, t: nat)
    requires var s := State(start, map[], map[], []); IsRun(ttl, s, run)
    requires var z := Exec(ttl, State(start, map[], map[], []), run);
             t in z.fetches && z.fetches[t].pc.Done? && !z.fetches[t].pc.outcome.Failed?
    ensures var z := Exec(ttl, State(start, map[], map[], []), run);
            exists a :: a in z.answers && a.image == z.fetches[t].image && a.digest == z.fetches[t].pc.outcome.digest
  {
    var s := State(start, map[], map[], []);
    RunKeepsInv(ttl, s, run);
    var z := Exec(ttl, s, run);
    var f := z.fetches[t];
    assert FetchInv(ttl, z, f);
    var limit := if f.pc.outcome.Cached? then f.pc.outcome.stamp else z.clock;
    var i :| 0 <= i < |z.answers| && z.answers[i].image == f.image && z.answers[i].digest == f.pc.outcome.digest && z.answers[i].at <= limit;
    assert z.answers[i] in z.answers;
  }

  // ---- What a fetch leaves for the next one ----

  /** A fetch caches its answer for the image in this run. */
  ghost predicate Puts(s: State, e: Label, image: string) {
    e.Run? && e.t in s.fetches && s.fetches[e.t].pc.Put? && s.fetches[e.t].image == image
  }

  ghost predicate NobodyPuts(ttl: int, s: State, run: seq<Label>, image: string)
    decreases |run|
  {
    run != [] ==> !Puts(s, run[0], image) && NobodyPuts(ttl, Next(ttl, s, run[0]), run[1..], image)
  }

  lemma {:induction false} ClockNeverGoesBack(ttl: int, s: State, run: seq<Label>)
    ensures s.clock <= Exec(ttl, s, run).clock
    decreases |run|
  {
    if run == [] {
    } else {
      ClockNeverGoesBack(ttl, Next(ttl, s, run[0]), run[1..]);
    }
  }

  /** No lookup of any fetch takes an entry away before its deadline. */
  lemma {:induction false} EntryLasts(ttl: int, s: State, run: seq<Label>, image: string)
    requires Inv(ttl, s) && IsRun(ttl, s, run) && NobodyPuts(ttl, s, run, image)
    requires image in s.cache && Exec(ttl, s, run).clock <= s.cache[image].validUntil
    ensures var z := Exec(ttl, s, run); Inv(ttl, z) && image in z.cache && z.cache[image] == s.cache[image]
    decreases |run|
  {
    if run == [] {
    } else {
      var e, s' := run[0], Next(ttl, s, run[0]);
      NextKeepsInv(ttl, s, e);
      ClockNeverGoesBack(ttl, s, run);
      if e.Run? {
        assert FetchInv(ttl, s, s.fetches[e.t]);
      }
      EntryLasts(ttl, s', run[1..], image);
    }
  }

  lemma LookServes(ttl: int, s: State, u: nat, now: int, answer: Option<string>)
    requires Inv(ttl, s) && u in s.fetches && s.fetches[u].pc == Look(now)
    requires var image := s.fetches[u].image;
             image in s.cache && s.clock <= s.cache[image].validUntil && s.cache[image].value != ""
    ensures var e := s.cache[s.fetches[u].image];
            Step(ttl, s, u, answer).fetches[u].pc == Done(Cached(e.value, e.validUntil - ttl, now))
  {
    assert FetchInv(ttl, s, s.fetches[u]);
  }

  /** A digest that was just fetched and cached is what every fetch that asks the cache
      gets until its deadline, whatever other fetches run and whether or not the
      registry would still answer. */
  lemma FetchedDigestIsServed(ttl: int, s: State, t: nat, run: seq<Label>, u: nat, now: int, answer: Option<string>)
    requires Inv(ttl, s) && t in s.fetches && s.fetches[t].pc.Put? && s.fetches[t].pc.digest != ""
    requires var s1, image := Step(ttl, s, t, None), s.fetches[t].image;
             && IsRun(ttl, s1, run) && NobodyPuts(ttl, s1, run, image)
             && Exec(ttl, s1, run).clock <= s.fetches[t].pc.stamp + ttl
             && u in Exec(ttl, s1, run).fetches && Exec(ttl, s1, run).fetches[u] == Fetch(image, Look(now))
    ensures var z := Exec(ttl, Step(ttl, s, t, None), run);
            Step(ttl, z, u, answer).fetches[u].pc == Done(Cached(s.fetches[t].pc.digest, s.fetches[t].pc.stamp, now))
  {
    var s1 := Step(ttl, s, t, None);
    StepKeepsInv(ttl, s, t, None);
    EntryLasts(ttl, s1, run, s.fetches[t].image);
    LookServes(ttl, Exec(ttl, s1, run), u, now, answer);
  }

  /** The fetch does not look into the cache. */
  predicate Bypasses(pc: Pc) {
    pc.Ask? || pc.Stamp? || pc.Put? || (pc.Done? && !pc.outcome.Cached?)
  }

  /** A fetch that was begun with `pull` never returns what the cache holds. */
  lemma {:induction false} PullBypassesCache(ttl: int, s: State, run: seq<Label>, t: nat, image: string)
    requires (t in s.fetches && Bypasses(s.fetches[t].pc)) || (run != [] && run[0] == Begin(t, image, true))
    requires IsRun(ttl, s, run)
    ensures var z := Exec(ttl, s, run); t in z.fetches && Bypasses(z.fetches[t].pc)
    decreases |run|
  {
    if run == [] {
    } else {
      PullBypassesCache(ttl, Next(ttl, s, run[0]), run[1..], t, image);
    }
  }

  // ---- What a failed fetch changes ----

  /** A fetch that looked in vain and then fails has changed the cache exactly when the
      entry it looked at had expired, and no later lookup can tell. */
  lemma FailedFetchChangesCacheIff(ttl: int, s: State, t: nat, now: int)
    requires t in s.fetches && s.fetches[t].pc == Look(now) && Probe(s.cache, s.fetches[t].image, now) == ""
    ensures var z := Step(ttl, Step(ttl, s, t, None), t, None);
            && z.fetches[t].pc == Done(Failed)
            && (z.cache != s.cache <==> Expired(s.cache, s.fetches[t].image, now))
            && (forall i, n | n >= now :: Probe(z.cache, i, n) == Probe(s.cache, i, n))
  {
    if Expired(s.cache, s.fetches[t].image, now) {
      assert s.fetches[t].image !in Step(ttl, s, t, None).cache;
    }
  }

  /** An entry one tick past its deadline, met by a fetch that asks the cache first and
      finds the registry down. */
  lemma ExpiredEntryIsDropped(ttl: nat, image: string, digest: string) returns (s: State)
    ensures Inv(ttl, s) && 0 in s.fetches && s.fetches[0].pc == ReadClock && s.cache.Keys == {image}
    ensures var z := Step(ttl, Step(ttl, Step(ttl, s, 0, None), 0, None), 0, None);
            z.fetches[0].pc == Done(Failed) && z.cache == map[]
  {
    s := State(ttl + 1, map[image := CacheEntry(ttl, digest)], map[0 := Fetch(image, ReadClock)],
               [Answer(image, digest, 0)]);
    assert s.answers[0].image == image && Answered(s, image, digest, 0);
    FailedFetchChangesCacheIff(ttl, Step(ttl, s, 0, None), 0, ttl + 1);
  }
}
