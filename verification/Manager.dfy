/** The library manager running one operation at a time: `GetLibraryForVolume`,
    `RemoveVolume` and `tryCleanupLibrary` over the database, the store and the
    gauges, with every transaction and file operation succeeding.  Digest resolution
    and download may fail. */
module Manager {
  import opened Options
  import opened Records
  import opened Aggregates
  import D = Database
  import opened Metrics
  import F = Store

  type Content = F.Content

  datatype World = World(db: Db, store: map<LibraryId, Content>, gauges: Gauges)

  /** A finished download: the content and its size on disk. */
  datatype Download = Download(content: Content, size: int)

  /** A download that failed, or whose image held nothing. */
  predicate Useless(d: Option<Download>) {
    d.None? || d.value.content == []
  }

  // ---- The operations on values ----

  ghost function ShowCached(w: World, p: string): World {
    w.(gauges := SetCached(w.gauges, p, CachedCount(w.db.libraries, p), CachedBytes(w.db.libraries, p)))
  }

  ghost function ShowLinks(w: World, p: string): World {
    w.(gauges := SetLinks(w.gauges, p, VolumeLinks(w.db.libraries, p)))
  }

  ghost function LinkUp(w: World, l: LibraryId, v: VolumeId, name: string, fromCache: bool, now: int): World {
    var tx := LinkVolume(w.db, l, v, fromCache, now);
    if tx.None? then w else ShowLinks(w.(db := tx.value), name)
  }

  /** A library new to the store: record it, then show its package. */
  ghost function Store(w: World, l: LibraryId, name: string, d: Download): World {
    var stored := w.(store := w.store[l := d.content]);
    var tx := AddLibrary(stored.db, l, name, d.size);
    if tx.None? then stored else ShowCached(stored.(db := tx.value), name)
  }

  datatype Published = Published(w: World, library: Option<LibraryId>)

  ghost function Publish(w: World, v: VolumeId, name: string, resolved: Option<LibraryId>,
                         download: Option<Download>, now: int): Published
  {
    if v == "" then Published(w, None)
    else if Link(w.db, v).UnwrapOr("") != "" then
      var l := w.db.volumes[v].libraryId;
      if l in w.store then Published(w, Some(l))
      else if Useless(download) then Published(w, None)
      else Published(w.(store := w.store[l := download.value.content]), Some(l))
    else if resolved.None? || resolved.value == "" then Published(w, None)
    else
      var l := resolved.value;
      if l in w.store then Published(LinkUp(w, l, v, name, true, now), Some(l))
      else if Useless(download) then Published(w, None)
      else Published(LinkUp(Store(w, l, name, download.value), l, v, name, false, now), Some(l))
  }

  datatype Removed = Removed(w: World, library: Option<LibraryId>)

  /** Unlinking; the library returned is the one to schedule a cleanup for. */
  ghost function Remove(w: World, v: VolumeId): Removed {
    var tx := UnlinkVolume(w.db, v);
    if tx.None? then Removed(w, None)
    else
      var w' := w.(db := tx.value.db);
      if tx.value.libraryId == "" then Removed(w', None)
      else Removed(if tx.value.package == "" then w' else ShowLinks(w', tx.value.package), Some(tx.value.libraryId))
  }

  ghost function Cleanup(w: World, l: LibraryId): World {
    if l == "" || VolumeCount(w.db, l) > 0 then w
    else
      var package := Library(w.db, l).package;
      var w' := w.(store := w.store - {l}, db := w.db.(libraries := w.db.libraries - {l}));
      if package == "" then w' else ShowCached(w', package)
  }

  // ---- The operations on objects ----

  class LibraryManager {
    const db: D.Database
    const listener: LibraryListener
    const store: F.Store
    const immediate: bool

    ghost function Contents(): World
      reads db, listener, store
    {
      World(db.Contents(), F.Stored(store.tree), listener.Values())
    }

    /** Opening the manager seeds the gauges from the persisted state. */
    constructor (db: D.Database, store: F.Store, listener: LibraryListener, immediate: bool)
      modifies listener
      ensures this.db == db && this.store == store && this.listener == listener && this.immediate == immediate
      ensures Contents().db == db.Contents() && Contents().store == F.Stored(store.tree)
      ensures Agree(Contents().gauges, Contents().db.libraries)
    {
      this.db, this.store, this.listener, this.immediate := db, store, listener, immediate;
      new;
      var snap := db.TakeSnapshot();
      listener.OnSnapshot(snap);
    }

    method PackageStats(p: string) returns (count: int, bytes: int, links: int)
      requires p != ""
      ensures count == CachedCount(db.libraries, p)
      ensures bytes == CachedBytes(db.libraries, p)
      ensures links == VolumeLinks(db.libraries, p)
    {
      var snap := db.TakeSnapshot();
      assert D.DescribesPackage(snap, db.libraries, p);
      count, bytes, links := D.Get(snap.cachedCount, p), D.Get(snap.cachedBytes, p), D.Get(snap.volumeLinks, p);
    }

    method LinkToVolume(l: LibraryId, v: VolumeId, name: string, fromCache: bool, now: int) returns (ok: bool)
      requires name != ""
      modifies db, listener
      ensures ok <==> l != "" && v != ""
      ensures Contents() == LinkUp(old(Contents()), l, v, name, fromCache, now)
    {
      ok := db.LinkVolume(l, v, fromCache, now);
      if ok {
        var _, _, n := PackageStats(name);
        ghost var before := listener.links;
        listener.OnVolumeLinked(name, n);
        OnlySeriesIsUpdate(before, listener.links, name, n);
      }
    }

    method DownloadToStore(l: LibraryId, download: Option<Download>) returns (ok: bool)
      requires l != "" && F.Sound(store.tree) && l !in F.Stored(store.tree)
      modifies store
      ensures F.Sound(store.tree)
      ensures ok <==> !Useless(download)
      ensures F.Stored(store.tree) ==
              if ok then F.Stored(old(store.tree))[l := download.value.content] else F.Stored(old(store.tree))
    {
      if download.None? {
        return false;
      }
      ok := store.Add(l, F.Directory(download.value.content), true);
    }

    /** `resolved` is the digest the registry gives for the request's image, and
        `download` what a download of it yields, if they succeed. */
    method GetLibraryForVolume(v: VolumeId, name: string, resolved: Option<LibraryId>,
                               download: Option<Download>, now: int) returns (r: Option<LibraryId>)
      requires name != "" && F.Sound(store.tree)
      modifies db, store, listener
      ensures F.Sound(store.tree)
      ensures Published(Contents(), r) == Publish(old(Contents()), v, name, resolved, download, now)
    {
      if v == "" {
        return None;
      }
      var existing := db.GetLibraryForVolume(v);
      if existing.value != "" {
        var l := existing.value;
        var found := store.Get(l);
        if found == F.Found {
          return Some(l);
        }
        var restored := DownloadToStore(l, download);
        return if restored then Some(l) else None;
      }
      if resolved.None? {
        return None;
      }
      var l := resolved.value;
      var found := store.Get(l);
      if found == F.Error {
        return None;
      }
      if found == F.Found {
        var _ := LinkToVolume(l, v, name, true, now);
        return Some(l);
      }
      var stored := DownloadToStore(l, download);
      if !stored {
        return None;
      }
      var _ := db.AddLibrary(l, name, download.value.size);
      var count, bytes, _ := PackageStats(name);
      ghost var g := listener.Values();
      listener.OnLibraryCached(name, count, bytes);
      OnlySeriesIsUpdate(g.cached, listener.cached, name, count);
      OnlySeriesIsUpdate(g.cachedBytes, listener.cachedBytes, name, bytes);
      var _ := LinkToVolume(l, v, name, false, now);
      r := Some(l);
    }

    method TryCleanupLibrary(l: LibraryId)
      requires F.Sound(store.tree)
      modifies db, store, listener
      ensures F.Sound(store.tree)
      ensures Contents() == Cleanup(old(Contents()), l)
    {
      var info := db.GetLibrary(l);
      if info.None? || info.value.0.volumeCount > 0 {
        return;
      }
      var package := info.value.0.package;
      var _ := store.Remove(l, None);
      var _ := db.RemoveLibrary(l);
      if package != "" {
        var count, bytes, _ := PackageStats(package);
        ghost var g := listener.Values();
        listener.OnLibraryEvicted(package, count, bytes);
        OnlySeriesIsUpdate(g.cached, listener.cached, package, count);
        OnlySeriesIsUpdate(g.cachedBytes, listener.cachedBytes, package, bytes);
      }
    }

    /** Under the immediate strategy the cleanup runs before the call returns;
        otherwise it is left to the scheduler. */
    method RemoveVolume(v: VolumeId) returns (scheduled: Option<LibraryId>)
      requires F.Sound(store.tree)
      modifies db, store, listener
      ensures F.Sound(store.tree)
      ensures var removed := Remove(old(Contents()), v);
              && scheduled == removed.library
              && Contents() == if immediate && scheduled.Some? then Cleanup(removed.w, scheduled.value) else removed.w
    {
      var ok, l, package := db.UnlinkVolume(v);
      if !ok || l == "" {
        return None;
      }
      if package != "" {
        var _, _, n := PackageStats(package);
        ghost var before := listener.links;
        listener.OnVolumeUnlinked(package, n);
        OnlySeriesIsUpdate(before, listener.links, package, n);
      }
      if immediate {
        TryCleanupLibrary(l);
      }
      scheduled := Some(l);
    }
  }

  // ---- What every operation keeps ----

  /** Linking an unlinked volume shows the links of the requested package only, so
      the gauges go on agreeing exactly when the record carries that label or none. */
  lemma LinkUpAgreesIff(w: World, l: LibraryId, v: VolumeId, name: string, fromCache: bool, now: int)
    requires Agree(w.gauges, w.db.libraries)
    requires l != "" && v != "" && name != "" && v !in w.db.volumes
    ensures var w' := LinkUp(w, l, v, name, fromCache, now);
            Agree(w'.gauges, w'.db.libraries) <==> Library(w.db, l).package in {"", name}
  {
    var w' := LinkUp(w, l, v, name, fromCache, now);
    var a, b := w.db.libraries, w'.db.libraries;
    var r := b[l];
    forall p | p != "" && p != Library(w.db, l).package
      ensures AgreeOn(w'.gauges, b, p)
    {
      assert AgreeOn(w.gauges, a, p);
      OtherPackagesKeep(a, l, r, p);
    }
    var q := Library(w.db, l).package;
    if q != "" {
      CounterMovesLinks(a, l, r.volumeCount);
      assert a[l].(volumeCount := r.volumeCount) == r;
      assert AgreeOn(w.gauges, a, q);
      assert AgreeOn(w'.gauges, b, q) <==> q == name;
    }
  }

  /** The same for a library that was downloaded first, which relabels its record. */
  lemma StoreAndLinkAgreesIff(w: World, l: LibraryId, v: VolumeId, name: string, d: Download, now: int)
    requires Agree(w.gauges, w.db.libraries)
    requires l != "" && v != "" && name != "" && v !in w.db.volumes
    ensures var w' := LinkUp(Store(w, l, name, d), l, v, name, false, now);
            Agree(w'.gauges, w'.db.libraries) <==> Library(w.db, l).package in {"", name}
  {
    var w1 := Store(w, l, name, d);
    var w2 := LinkUp(w1, l, v, name, false, now);
    var a, b1, b2 := w.db.libraries, w1.db.libraries, w2.db.libraries;
    var q := Library(w.db, l).package;
    forall p | p != "" && p != q && p != name ensures AgreeOn(w2.gauges, b2, p) {
      assert AgreeOn(w.gauges, a, p);
      OtherPackagesKeep(a, l, b1[l], p);
      OtherPackagesKeep(b1, l, b2[l], p);
    }
    CounterMovesLinks(b1, l, b2[l].volumeCount);
    assert b1[l].(volumeCount := b2[l].volumeCount) == b2[l];
    assert AgreeOn(w2.gauges, b2, name);
    if q != "" && q != name {
      RelabelMovesCount(a, l, b1[l]);
      OtherPackagesKeep(b1, l, b2[l], q);
      assert AgreeOn(w.gauges, a, q);
      assert !AgreeOn(w2.gauges, b2, q);
    }
  }

  /** A publish of an unlinked volume that succeeds keeps the gauges in step with the
      database exactly when the library's record is unlabelled or carries the label
      of the request; any other publish leaves database and gauges alone. */
  lemma PublishAgreesIff(w: World, v: VolumeId, name: string, resolved: Option<LibraryId>,
                         download: Option<Download>, now: int)
    requires Agree(w.gauges, w.db.libraries) && Consistent(w.db) && name != ""
    ensures var r := Publish(w, v, name, resolved, download, now);
            if r.library.Some? && v !in w.db.volumes
            then Agree(r.w.gauges, r.w.db.libraries) <==> Library(w.db, r.library.value).package in {"", name}
            else r.w.db == w.db && r.w.gauges == w.gauges
  {
    var r := Publish(w, v, name, resolved, download, now);
    if r.library.Some? && v !in w.db.volumes {
      var l := r.library.value;
      if l in w.store {
        LinkUpAgreesIff(w, l, v, name, true, now);
      } else {
        StoreAndLinkAgreesIff(w, l, v, name, download.value, now);
      }
    }
  }

  /** One digest requested under two names: a second publish under another name leaves
      the gauges of the first name behind. */
  lemma TwoNamesForOneDigest() returns (w: World)
    ensures Consistent(w.db) && Agree(w.gauges, w.db.libraries)
    ensures var r := Publish(w, "w", "q", Some("a"), None, 0);
            r.library == Some("a") && !Agree(r.w.gauges, r.w.db.libraries)
  {
    OneLinkIsConsistent();
    w := ShowLinks(ShowCached(World(ONE_LINK, map["a" := [0]], Gauges(map[], map[], map[])), "p"), "p");
    forall p | p != "" && p != "p" ensures AgreeOn(w.gauges, w.db.libraries, p) {
      assert Labelled(w.db.libraries, w.db.libraries.Keys, p) == {};
    }
    PublishAgreesIff(w, "w", "q", Some("a"), None, 0);
  }

  lemma PublishKeepsConsistent(w: World, v: VolumeId, name: string, resolved: Option<LibraryId>,
                               download: Option<Download>, now: int)
    requires Consistent(w.db) && name != ""
    ensures Consistent(Publish(w, v, name, resolved, download, now).w.db)
  {
    if v != "" && v !in w.db.volumes && resolved.Some? && resolved.value != "" {
      var l := resolved.value;
      if l in w.store {
        LinkVolumeKeeps(w.db, l, v, true, now);
      } else if download.Some? {
        AddLibraryKeeps(w.db, l, name, download.value.size);
        LinkVolumeKeeps(Store(w, l, name, download.value).db, l, v, false, now);
      }
    }
  }

  lemma RemoveKeeps(w: World, v: VolumeId)
    requires Consistent(w.db) && Agree(w.gauges, w.db.libraries)
    ensures var w' := Remove(w, v).w; Consistent(w'.db) && Agree(w'.gauges, w'.db.libraries)
  {
    if v != "" && v in w.db.volumes {
      UnlinkVolumeKeeps(w.db, v);
      var w' := Remove(w, v).w;
      var a, b, l := w.db.libraries, w'.db.libraries, w.db.volumes[v].libraryId;
      var q := Library(w.db, l).package;
      forall p | p != "" && p != q ensures AgreeOn(w'.gauges, b, p) {
        assert AgreeOn(w.gauges, a, p);
        OtherPackagesKeep(a, l, b[l], p);
      }
      if q != "" {
        CounterMovesLinks(a, l, b[l].volumeCount);
        assert a[l].(volumeCount := b[l].volumeCount) == b[l];
        assert AgreeOn(w.gauges, a, q);
      }
    }
  }

  lemma CleanupKeeps(w: World, l: LibraryId)
    requires Consistent(w.db) && Agree(w.gauges, w.db.libraries)
    ensures var w' := Cleanup(w, l); Consistent(w'.db) && Agree(w'.gauges, w'.db.libraries)
  {
    if l != "" && VolumeCount(w.db, l) <= 0 {
      assert VolumeCount(w.db, l) == |LinkedTo(w.db, l)|;
      RemoveLibraryKeepsIff(w.db, l);
      var w' := Cleanup(w, l);
      var a, q := w.db.libraries, Library(w.db, l).package;
      forall p | p != "" && p != q ensures AgreeOn(w'.gauges, w'.db.libraries, p) {
        assert AgreeOn(w.gauges, a, p);
        OtherPackagesKeepOnRemoval(a, l, p);
      }
      if q != "" {
        RemovalMovesLinks(a, l);
        assert AgreeOn(w.gauges, a, q);
      }
    }
  }

  // ---- What a publish and a cleanup achieve ----

  /** A publish that succeeds returns the library that the volume is linked to from
      then on, and that library is on disk; no other volume's link changes, and no
      directory that was there is replaced. */
  lemma PublishLinksAndStores(w: World, v: VolumeId, name: string, resolved: Option<LibraryId>,
                              download: Option<Download>, now: int)
    requires Consistent(w.db) && name != ""
    ensures var r := Publish(w, v, name, resolved, download, now);
            && (r.library.Some? ==> Link(r.w.db, v) == r.library && r.library.value in r.w.store)
            && (r.library.Some? && v in w.db.volumes ==> r.library == Link(w.db, v))
            && (r.library.Some? && v !in w.db.volumes ==> r.library == resolved)
            && (forall u | u != v || r.library.None? :: Link(r.w.db, u) == Link(w.db, u))
            && (forall l | l in w.store :: l in r.w.store && r.w.store[l] == w.store[l])
  {
  }

  /** A publish succeeds exactly when the library that the volume is linked to, or else
      the one that its image resolves to, is stored or can be downloaded. */
  lemma PublishSucceedsIff(w: World, v: VolumeId, name: string, resolved: Option<LibraryId>,
                           download: Option<Download>, now: int)
    requires Consistent(w.db) && name != ""
    ensures var l := if v in w.db.volumes then Link(w.db, v) else resolved;
            Publish(w, v, name, resolved, download, now).library.Some? <==>
              v != "" && l.Some? && l.value != "" && (l.value in w.store || !Useless(download))
    ensures Publish(w, v, name, resolved, download, now).library.None? ==>
              Publish(w, v, name, resolved, download, now).w == w
  {
  }

  /** What a successful publish writes: the link of a new volume with its stamp and where
      the library came from, the label and size of a library new to the store, and the
      directory that was downloaded if there was none. */
  lemma PublishRecords(w: World, v: VolumeId, name: string, resolved: Option<LibraryId>,
                       download: Option<Download>, now: int)
    requires Consistent(w.db) && name != ""
    requires Publish(w, v, name, resolved, download, now).library.Some?
    ensures var r := Publish(w, v, name, resolved, download, now);
            var l, db' := r.library.value, r.w.db;
            && (v !in w.db.volumes ==> db'.volumes == w.db.volumes[v := VolumeRecord(l, now, l in w.store)])
            && (v in w.db.volumes ==> db' == w.db)
            && (v !in w.db.volumes && l !in w.store ==>
                  Library(db', l).package == name && Library(db', l).sizeBytes == download.value.size)
            && (v !in w.db.volumes && l in w.store ==>
                  Library(db', l).package == Library(w.db, l).package &&
                  Library(db', l).sizeBytes == Library(w.db, l).sizeBytes)
            && r.w.store == (if l in w.store then w.store else w.store[l := download.value.content])
  {
  }

  /** A removal takes the volume's link away and names its library; for a volume
      without a link it does nothing. */
  lemma RemoveTakesLink(w: World, v: VolumeId)
    requires Consistent(w.db)
    ensures v != "" && v in w.db.volumes ==>
              var r, l := Remove(w, v), w.db.volumes[v].libraryId;
              && r.library == Some(l) && r.w.db.volumes == w.db.volumes - {v} && r.w.store == w.store
              && VolumeCount(r.w.db, l) == VolumeCount(w.db, l) - 1
    ensures v == "" || v !in w.db.volumes ==> Remove(w, v) == Removed(w, None)
  {
    if v != "" && v in w.db.volumes {
      UnlinkVolumeKeeps(w.db, v);
    }
  }

  /** A cleanup leaves a library that some volume is linked to alone, and removes the
      directory and the record of any other. */
  lemma CleanupRemovesIffUnlinked(w: World, l: LibraryId)
    requires Consistent(w.db) && l != ""
    ensures l in Cleanup(w, l).store <==> l in w.store && LinkedTo(w.db, l) != {}
    ensures LinkedTo(w.db, l) != {} ==> Cleanup(w, l) == w
    ensures LinkedTo(w.db, l) == {} ==> Cleanup(w, l).db.libraries == w.db.libraries - {l}
    ensures Cleanup(w, l).db.volumes == w.db.volumes
    ensures forall m | m in w.store && m != l :: m in Cleanup(w, l).store && Cleanup(w, l).store[m] == w.store[m]
  {
    assert VolumeCount(w.db, l) == |LinkedTo(w.db, l)|;
  }

  // ---- Over whole sequential runs ----

  datatype Op =
    | PublishOp(v: VolumeId, name: string, resolved: Option<LibraryId>, download: Option<Download>, now: int)
    | RemoveOp(v: VolumeId)
    | CleanupOp(l: LibraryId)

  /** Under the immediate strategy a removal is a `RemoveOp` and the `CleanupOp` of
      its library; under the delayed one the cleanup comes at any later time. */
  ghost function Apply(w: World, op: Op): World {
    match op
    case PublishOp(v, name, resolved, download, now) => Publish(w, v, name, resolved, download, now).w
    case RemoveOp(v) => Remove(w, v).w
    case CleanupOp(l) => Cleanup(w, l)
  }

  ghost function Exec(w: World, ops: seq<Op>): World
    decreases |ops|
  {
    if ops == [] then w else Exec(Apply(w, ops[0]), ops[1..])
  }

  /** Each digest is requested under one package name. */
  ghost predicate OneName(packageOf: LibraryId -> string, op: Op) {
    op.PublishOp? ==> op.name != "" && (op.resolved.Some? ==> op.name == packageOf(op.resolved.value))
  }

  /** Records carry the name of their digest, or none if they were migrated. */
  ghost predicate Named(packageOf: LibraryId -> string, db: Db) {
    forall l | l in db.libraries :: db.libraries[l].package in {"", packageOf(l)}
  }

  ghost predicate InStep(packageOf: LibraryId -> string, w: World) {
    Consistent(w.db) && Named(packageOf, w.db) && Agree(w.gauges, w.db.libraries)
  }

  lemma ApplyKeepsInStep(packageOf: LibraryId -> string, w: World, op: Op)
    requires InStep(packageOf, w) && OneName(packageOf, op)
    ensures InStep(packageOf, Apply(w, op))
  {
    match op
    case PublishOp(v, name, resolved, download, now) =>
      PublishKeepsConsistent(w, v, name, resolved, download, now);
      PublishAgreesIff(w, v, name, resolved, download, now);
    case RemoveOp(v) => RemoveKeeps(w, v);
    case CleanupOp(l) => CleanupKeeps(w, l);
  }

  /** After every operation of every sequential run from startup, each gauge shows
      what a fresh snapshot of the database shows. */
  lemma {:induction false} GaugesTrackTheDatabase(packageOf: LibraryId -> string, w: World, ops: seq<Op>, snap: D.Snapshot)
    requires InStep(packageOf, w) && (forall op | op in ops :: OneName(packageOf, op))
    requires D.Describes(snap, Exec(w, ops).db.libraries)
    ensures var g := Exec(w, ops).gauges;
            forall p | p != "" ::
              && D.Get(g.cached, p) == D.Get(snap.cachedCount, p)
              && D.Get(g.cachedBytes, p) == D.Get(snap.cachedBytes, p)
              && D.Get(g.links, p) == D.Get(snap.volumeLinks, p)
    decreases |ops|
  {
    if ops == [] {
      AgreeMeansSnapshot(w.gauges, w.db.libraries, snap);
    } else {
      ApplyKeepsInStep(packageOf, w, ops[0]);
      GaugesTrackTheDatabase(packageOf, Apply(w, ops[0]), ops[1..], snap);
    }
  }

  // ---- Rolling back a publish ----

  lemma RollbackOfNewLink(w: World, v: VolumeId, name: string, resolved: Option<LibraryId>,
                          download: Option<Download>, now: int, m: LibraryId)
    requires Consistent(w.db) && name != "" && v !in w.db.volumes
    requires Publish(w, v, name, resolved, download, now).library.Some?
    ensures var r := Publish(w, v, name, resolved, download, now);
            var back := Remove(r.w, v);
            var cleaned := Cleanup(back.w, r.library.value);
            && v in r.w.db.volumes
            && back.library == r.library
            && back.w.db.volumes == cleaned.db.volumes == w.db.volumes
            && VolumeCount(back.w.db, m) == VolumeCount(cleaned.db, m) == VolumeCount(w.db, m)
            && (m in w.store && LinkedTo(w.db, m) != {} ==> m in cleaned.store && cleaned.store[m] == w.store[m])
  {
    var l := resolved.value;
    var base := if l in w.store then w.db else AddLibrary(w.db, l, name, download.value.size).value;
    if l !in w.store {
      AddLibraryKeeps(w.db, l, name, download.value.size);
    }
    UnlinkUndoesLink(base, l, v, l in w.store, now);
    assert VolumeCount(w.db, m) == |LinkedTo(w.db, m)|;
    assert VolumeCount(w.db, l) == |LinkedTo(w.db, l)|;
  }

  /** `getLibraryPath` removes the volume when the source path fails validation,
      whether or not this publish made the link.  The rollback brings the links back to
      what they were exactly when the volume was not linked before.  Then it also
      restores every counter (`m` is any library), before and after the cleanup that it
      schedules, and takes no directory away from a library that is still in use. */
  lemma RollbackConservesIff(w: World, v: VolumeId, name: string, resolved: Option<LibraryId>,
                             download: Option<Download>, now: int, m: LibraryId)
    requires Consistent(w.db) && name != ""
    requires Publish(w, v, name, resolved, download, now).library.Some?
    ensures var r := Publish(w, v, name, resolved, download, now);
            var back := Remove(r.w, v);
            var cleaned := Cleanup(back.w, r.library.value);
            && v in r.w.db.volumes && back.library == r.library
            && (back.w.db.volumes == w.db.volumes <==> v !in w.db.volumes)
            && (cleaned.db.volumes == w.db.volumes <==> v !in w.db.volumes)
            && (v !in w.db.volumes ==>
                  && VolumeCount(back.w.db, m) == VolumeCount(cleaned.db, m) == VolumeCount(w.db, m)
                  && (m in w.store && LinkedTo(w.db, m) != {} ==> m in cleaned.store && cleaned.store[m] == w.store[m]))
  {
    if v !in w.db.volumes {
      RollbackOfNewLink(w, v, name, resolved, download, now, m);
    } else {
      var r := Publish(w, v, name, resolved, download, now);
      assert r.w.db == w.db && v !in Remove(r.w, v).w.db.volumes;
    }
  }

  /** A failed validation of a volume that was linked before takes one count from its
      library, and the cleanup deletes the library exactly when this was its only volume. */
  lemma RollbackOfOldLink(w: World, v: VolumeId, name: string, resolved: Option<LibraryId>,
                          download: Option<Download>, now: int)
    requires Consistent(w.db) && v in w.db.volumes
    requires Publish(w, v, name, resolved, download, now).library.Some?
    ensures var l, r := w.db.volumes[v].libraryId, Publish(w, v, name, resolved, download, now);
            var back := Remove(r.w, v);
            var cleaned := Cleanup(back.w, l);
            && r.library == back.library == Some(l) && l in r.w.store
            && VolumeCount(back.w.db, l) == VolumeCount(w.db, l) - 1
            && (l !in cleaned.store <==> LinkedTo(w.db, l) == {v})
  {
    var l, r := w.db.volumes[v].libraryId, Publish(w, v, name, resolved, download, now);
    UnlinkVolumeKeeps(w.db, v);
    var back := Remove(r.w, v);
    assert v in LinkedTo(w.db, l);
    CleanupRemovesIffUnlinked(back.w, l);
  }
}
