/** The in-place upgrade from the legacy nested buckets to the flat schema. */
module Migration {
  import opened Options
  import opened Records
  import opened Aggregates

  // ---- Legacy buckets ----

  /** Byte order of keys, in which a bucket is walked. */
  predicate Before(a: string, b: string) {
    |b| > 0 && (|a| == 0 || a[0] < b[0] || (a[0] == b[0] && Before(a[1..], b[1..])))
  }

  lemma {:induction false} BeforeIsIrreflexive(a: string)
    ensures !Before(a, a)
  {
    if |a| == 0 {
    } else {
      BeforeIsIrreflexive(a[1..]);
    }
  }

  lemma {:induction false} BeforeIsTotal(a: string, b: string)
    ensures a == b || Before(a, b) || Before(b, a)
  {
    if |a| == 0 || |b| == 0 {
    } else {
      BeforeIsTotal(a[1..], b[1..]);
      assert a == [a[0]] + a[1..] && b == [b[0]] + b[1..];
    }
  }

  lemma {:induction false} BeforeIsTransitive(a: string, b: string, c: string)
    requires Before(a, b) && Before(b, c)
    ensures Before(a, c)
  {
    if |a| == 0 || a[0] < b[0] || b[0] < c[0] {
    } else {
      BeforeIsTransitive(a[1..], b[1..], c[1..]);
    }
  }

  datatype Meta = Meta(package: string, sizeBytes: int) | Malformed

  datatype MetaEntry = MetaEntry(l: LibraryId, meta: Meta)

  /** A sub-bucket of the mapping bucket: a library and the volumes under it. */
  datatype MappingEntry = MappingEntry(l: LibraryId, volumes: seq<VolumeId>)

  /** The legacy buckets; `None` is a bucket that does not exist.  The content of
      the volume-mapping bucket is never read. */
  datatype Legacy = Legacy(
    metadata: Option<seq<MetaEntry>>,
    mapping: Option<seq<MappingEntry>>,
    hasVolumeMapping: bool)

  const NO_LEGACY := Legacy(None, None, false)

  datatype File = File(db: Db, legacy: Legacy)

  ghost predicate MetaSorted(ms: seq<MetaEntry>) {
    && (forall i | 0 <= i < |ms| :: ms[i].l != "")
    && (forall i, j | 0 <= i < j < |ms| :: Before(ms[i].l, ms[j].l))
  }

  ghost predicate MappingSorted(es: seq<MappingEntry>) {
    && (forall i | 0 <= i < |es| :: es[i].l != "" && "" !in es[i].volumes)
    && (forall i, j | 0 <= i < j < |es| :: Before(es[i].l, es[j].l))
  }

  /** Keys of a bucket are sorted, distinct and not blank. */
  ghost predicate WellFormed(legacy: Legacy) {
    && (legacy.metadata.Some? ==> MetaSorted(legacy.metadata.value))
    && (legacy.mapping.Some? ==> MappingSorted(legacy.mapping.value))
  }

  predicate Readable(ms: seq<MetaEntry>) {
    forall m | m in ms :: m.meta.Meta?
  }

  function Metas(legacy: Legacy): seq<MetaEntry> {
    legacy.metadata.UnwrapOr([])
  }

  function Mappings(legacy: Legacy): seq<MappingEntry> {
    legacy.mapping.UnwrapOr([])
  }

  // ---- The migration on values ----

  /** Metadata is written over whatever record is there, with a zero counter. */
  function Seed(libraries: Libraries, ms: seq<MetaEntry>): Libraries
    requires Readable(ms)
    decreases |ms|
  {
    if ms == [] then libraries
    else
      var m := ms[|ms| - 1];
      Seed(libraries, ms[..|ms| - 1])[m.l := LibraryRecord(m.meta.package, m.meta.sizeBytes, 0)]
  }

  /** The first library that lists a volume gets it. */
  function Adopt(db: Db, l: LibraryId, v: VolumeId): Db {
    if v in db.volumes then db
    else
      var rec := Library(db, l);
      Db(db.volumes[v := VolumeRecord(l, 0, false)],
         db.libraries[l := rec.(volumeCount := rec.volumeCount + 1)])
  }

  function AdoptAll(db: Db, l: LibraryId, vs: seq<VolumeId>): Db
    decreases |vs|
  {
    if vs == [] then db else Adopt(AdoptAll(db, l, vs[..|vs| - 1]), l, vs[|vs| - 1])
  }

  function AdoptMapping(db: Db, es: seq<MappingEntry>): Db
    decreases |es|
  {
    if es == [] then db
    else AdoptAll(AdoptMapping(db, es[..|es| - 1]), es[|es| - 1].l, es[|es| - 1].volumes)
  }

  /** An unreadable metadata value fails the transaction, which changes nothing. */
  function Migrate(f: File): Option<File> {
    if !Readable(Metas(f.legacy)) then None
    else
      Some(File(AdoptMapping(Db(f.db.volumes, Seed(f.db.libraries, Metas(f.legacy))), Mappings(f.legacy)), NO_LEGACY))
  }

  // ---- The migration as the transaction runs it ----

  class DatabaseFile {
    var volumes: map<VolumeId, VolumeRecord>
    var libraries: map<LibraryId, LibraryRecord>
    var metadata: Option<seq<MetaEntry>>
    var mapping: Option<seq<MappingEntry>>
    var hasVolumeMapping: bool

    function Contents(): File
      reads this
    {
      File(Db(volumes, libraries), Legacy(metadata, mapping, hasVolumeMapping))
    }

    constructor (f: File)
      ensures Contents() == f
    {
      volumes, libraries := f.db.volumes, f.db.libraries;
      metadata, mapping, hasVolumeMapping := f.legacy.metadata, f.legacy.mapping, f.legacy.hasVolumeMapping;
    }

    /** The walk over the mapping bucket and its sub-buckets. */
    static method AdoptBucket(volumes: map<VolumeId, VolumeRecord>, libraries: map<LibraryId, LibraryRecord>,
                              es: seq<MappingEntry>)
      returns (vols: map<VolumeId, VolumeRecord>, libs: map<LibraryId, LibraryRecord>)
      ensures Db(vols, libs) == AdoptMapping(Db(volumes, libraries), es)
    {
      vols, libs := volumes, libraries;
      ghost var seeded := Db(vols, libs);
      for i := 0 to |es|
        invariant Db(vols, libs) == AdoptMapping(seeded, es[..i])
      {
        var l, vs := es[i].l, es[i].volumes;
        ghost var before := Db(vols, libs);
        for j := 0 to |vs|
          invariant Db(vols, libs) == AdoptAll(before, l, vs[..j])
        {
          assert vs[..j + 1][..j] == vs[..j];
          if vs[j] !in vols {
            vols := vols[vs[j] := VolumeRecord(l, 0, false)];
            var rec := if l in libs then libs[l] else ZERO_RECORD;
            rec := rec.(volumeCount := rec.volumeCount + 1);
            libs := libs[l := rec];
          }
        }
        assert vs[..|vs|] == vs && es[..i + 1][..i] == es[..i];
      }
      assert es[..|es|] == es;
    }

    /** The walk over the metadata bucket, up to a value it cannot read. */
    static method SeedBucket(libraries: map<LibraryId, LibraryRecord>, ms: seq<MetaEntry>)
      returns (ok: bool, libs: map<LibraryId, LibraryRecord>)
      ensures ok <==> Readable(ms)
      ensures ok ==> libs == Seed(libraries, ms)
    {
      libs := libraries;
      for i := 0 to |ms|
        invariant Readable(ms[..i]) && libs == Seed(libraries, ms[..i])
      {
        assert ms[..i + 1] == ms[..i] + [ms[i]] && ms[..i + 1][..i] == ms[..i];
        if ms[i].meta.Malformed? {
          return false, libs;
        }
        libs := libs[ms[i].l := LibraryRecord(ms[i].meta.package, ms[i].meta.sizeBytes, 0)];
      }
      assert ms[..|ms|] == ms;
      ok := true;
    }

    method Upgrade() returns (ok: bool)
      modifies this
      ensures ok <==> (old(metadata).Some? ==> forall m | m in old(metadata).value :: m.meta.Meta?)
      ensures ok <==> Migrate(old(Contents())).Some?
      ensures Contents() == if ok then Migrate(old(Contents())).value else old(Contents())
      ensures ok ==> metadata == None && mapping == None && !hasVolumeMapping
    {
      ok := true;
      var vols, libs := volumes, libraries;
      if metadata.Some? {
        ok, libs := SeedBucket(libs, metadata.value);
        if !ok {
          return;
        }
      }
      if mapping.Some? {
        vols, libs := AdoptBucket(vols, libs, mapping.value);
      }
      volumes, libraries := vols, libs;
      metadata, mapping, hasVolumeMapping := None, None, false;
    }
  }

  // ---- Which library gets a volume ----

  predicate Lists(e: MappingEntry, v: VolumeId) {
    v in e.volumes
  }

  ghost predicate Listed(es: seq<MappingEntry>, v: VolumeId) {
    exists i :: 0 <= i < |es| && Lists(es[i], v)
  }

  /** `l` lists the volume, and no library that comes before it in key order does. */
  ghost predicate IsFirstLister(es: seq<MappingEntry>, v: VolumeId, l: LibraryId) {
    && (exists i :: 0 <= i < |es| && es[i].l == l && Lists(es[i], v))
    && (forall i | 0 <= i < |es| && Lists(es[i], v) :: es[i].l == l || Before(l, es[i].l))
  }

  /** The legacy buckets do not say when a volume was linked, or how. */
  predicate Unstamped(r: VolumeRecord) {
    r.createdAt == 0 && !r.fromCache
  }

  lemma {:induction false} AdoptAllVolumes(db: Db, l: LibraryId, vs: seq<VolumeId>)
    ensures var db' := AdoptAll(db, l, vs);
            forall v :: Link(db', v) == if v in db.volumes then Link(db, v) else if v in vs then Some(l) else None
    ensures forall v | v in AdoptAll(db, l, vs).volumes && v !in db.volumes :: Unstamped(AdoptAll(db, l, vs).volumes[v])
    ensures forall v | v in db.volumes :: v in AdoptAll(db, l, vs).volumes && AdoptAll(db, l, vs).volumes[v] == db.volumes[v]
    decreases |vs|
  {
    if vs == [] {
    } else {
      AdoptAllVolumes(db, l, vs[..|vs| - 1]);
      assert vs == vs[..|vs| - 1] + [vs[|vs| - 1]];
    }
  }

  /** A later library does not become the first lister of a volume listed before it. */
  lemma FirstListerStays(es: seq<MappingEntry>, v: VolumeId, l: LibraryId)
    requires MappingSorted(es) && |es| > 0 && IsFirstLister(es[..|es| - 1], v, l)
    ensures IsFirstLister(es, v, l)
  {
    var n := |es| - 1;
    var i :| 0 <= i < n && es[..n][i].l == l && Lists(es[..n][i], v);
    assert es[i].l == l && Lists(es[i], v) && Before(es[i].l, es[n].l);
    forall k | 0 <= k < |es| && Lists(es[k], v) ensures es[k].l == l || Before(l, es[k].l) {
      if k < n {
        assert es[..n][k] == es[k];
      }
    }
  }

  lemma ListedByLast(es: seq<MappingEntry>, v: VolumeId)
    requires |es| > 0
    ensures Listed(es, v) <==> Listed(es[..|es| - 1], v) || Lists(es[|es| - 1], v)
    ensures !Listed(es[..|es| - 1], v) && Lists(es[|es| - 1], v) ==> IsFirstLister(es, v, es[|es| - 1].l)
  {
    var n := |es| - 1;
    assert forall i | 0 <= i < n :: es[..n][i] == es[i];
    if i :| 0 <= i < n && Lists(es[i], v) {
      assert Lists(es[..n][i], v);
    }
  }

  /** Volumes that were already tracked stay as they are; every other listed volume
      goes to the first library that lists it; no volume is made up. */
  lemma {:induction false} AdoptMappingVolumes(db: Db, es: seq<MappingEntry>, v: VolumeId)
    requires MappingSorted(es)
    ensures var db' := AdoptMapping(db, es);
            && (v in db.volumes ==> v in db'.volumes && db'.volumes[v] == db.volumes[v])
            && (v in db'.volumes <==> v in db.volumes || Listed(es, v))
            && (v in db'.volumes && v !in db.volumes ==> IsFirstLister(es, v, db'.volumes[v].libraryId))
            && (v in db'.volumes && v !in db.volumes ==> Unstamped(db'.volumes[v]))
    decreases |es|
  {
    if es == [] {
    } else {
      var n := |es| - 1;
      var mid := AdoptMapping(db, es[..n]);
      AdoptMappingVolumes(db, es[..n], v);
      AdoptAllVolumes(mid, es[n].l, es[n].volumes);
      assert Link(AdoptMapping(db, es), v) ==
             if v in mid.volumes then Link(mid, v) else if v in es[n].volumes then Some(es[n].l) else None;
      ListedByLast(es, v);
      if v in mid.volumes && v !in db.volumes {
        FirstListerStays(es, v, mid.volumes[v].libraryId);
      }
    }
  }

  // ---- Counters ----

  function Gap(db: Db, l: LibraryId): int {
    |LinkedTo(db, l)| - VolumeCount(db, l)
  }

  lemma AdoptLinks(db: Db, l: LibraryId, v: VolumeId, m: LibraryId)
    requires v !in db.volumes
    ensures LinkedTo(Adopt(db, l, v), m) == LinkedTo(db, m) + if m == l then {v} else {}
  {
  }

  /** Adopting a volume adds one link and one to the counter of the same library. */
  lemma AdoptKeepsGap(db: Db, l: LibraryId, v: VolumeId, m: LibraryId)
    ensures Gap(Adopt(db, l, v), m) == Gap(db, m)
  {
    if v !in db.volumes {
      AdoptLinks(db, l, v, m);
      assert v !in LinkedTo(db, m);
    }
  }

  lemma {:induction false} AdoptAllKeepsGap(db: Db, l: LibraryId, vs: seq<VolumeId>, m: LibraryId)
    ensures Gap(AdoptAll(db, l, vs), m) == Gap(db, m)
    decreases |vs|
  {
    if vs == [] {
    } else {
      AdoptAllKeepsGap(db, l, vs[..|vs| - 1], m);
      AdoptKeepsGap(AdoptAll(db, l, vs[..|vs| - 1]), l, vs[|vs| - 1], m);
    }
  }

  lemma {:induction false} AdoptMappingKeepsGap(db: Db, es: seq<MappingEntry>, m: LibraryId)
    ensures Gap(AdoptMapping(db, es), m) == Gap(db, m)
    decreases |es|
  {
    if es == [] {
    } else {
      var n := |es| - 1;
      AdoptMappingKeepsGap(db, es[..n], m);
      AdoptAllKeepsGap(AdoptMapping(db, es[..n]), es[n].l, es[n].volumes, m);
    }
  }

  ghost predicate HasMeta(ms: seq<MetaEntry>, l: LibraryId) {
    exists i :: 0 <= i < |ms| && ms[i].l == l
  }

  /** Each metadata entry becomes the record of its library; other records stay. */
  lemma {:induction false} SeedRecords(libraries: Libraries, ms: seq<MetaEntry>, l: LibraryId)
    requires Readable(ms) && MetaSorted(ms)
    ensures var seeded := Seed(libraries, ms);
            && (forall i | 0 <= i < |ms| && ms[i].l == l ::
                  l in seeded && seeded[l] == LibraryRecord(ms[i].meta.package, ms[i].meta.sizeBytes, 0))
            && (!HasMeta(ms, l) ==> (l in seeded <==> l in libraries) && (l in libraries ==> seeded[l] == libraries[l]))
    decreases |ms|
  {
    if ms == [] {
    } else {
      var n := |ms| - 1;
      SeedRecords(libraries, ms[..n], l);
      BeforeIsIrreflexive(l);
      forall i | 0 <= i < n ensures ms[..n][i] == ms[i] && Before(ms[i].l, ms[n].l) {
      }
      if !HasMeta(ms, l) {
        assert ms[n].l != l;
        assert !HasMeta(ms[..n], l);
      }
    }
  }

  /** Adopting volumes never touches a package or a size. */
  lemma {:induction false} AdoptAllKeepsLabels(db: Db, l: LibraryId, vs: seq<VolumeId>, m: LibraryId)
    ensures Library(AdoptAll(db, l, vs), m).package == Library(db, m).package
    ensures Library(AdoptAll(db, l, vs), m).sizeBytes == Library(db, m).sizeBytes
    decreases |vs|
  {
    if vs == [] {
    } else {
      AdoptAllKeepsLabels(db, l, vs[..|vs| - 1], m);
    }
  }

  lemma {:induction false} AdoptMappingKeepsLabels(db: Db, es: seq<MappingEntry>, m: LibraryId)
    ensures Library(AdoptMapping(db, es), m).package == Library(db, m).package
    ensures Library(AdoptMapping(db, es), m).sizeBytes == Library(db, m).sizeBytes
    decreases |es|
  {
    if es == [] {
    } else {
      var n := |es| - 1;
      AdoptMappingKeepsLabels(db, es[..n], m);
      AdoptAllKeepsLabels(AdoptMapping(db, es[..n]), es[n].l, es[n].volumes, m);
    }
  }

  // ---- What a migration gives ----

  /** A migration fails on an unreadable metadata value and on nothing else. */
  lemma MigrationSucceedsIff(f: File)
    ensures Migrate(f).Some? <==> forall m | m in Metas(f.legacy) :: m.meta.Meta?
  {
  }

  /** Every volume of the legacy mapping ends with exactly one record; it names the
      first library in key order that lists the volume, unless the volume was
      already tracked, in which case its record is the old one. */
  lemma EachVolumeMigratesOnce(f: File, v: VolumeId)
    requires WellFormed(f.legacy) && Migrate(f).Some?
    ensures var es, db' := Mappings(f.legacy), Migrate(f).value.db;
            && (v in db'.volumes <==> v in f.db.volumes || Listed(es, v))
            && (v in f.db.volumes ==> db'.volumes[v] == f.db.volumes[v])
            && (v in db'.volumes && v !in f.db.volumes ==>
                  IsFirstLister(es, v, db'.volumes[v].libraryId) && Unstamped(db'.volumes[v]))
  {
    AdoptMappingVolumes(Db(f.db.volumes, Seed(f.db.libraries, Metas(f.legacy))), Mappings(f.legacy), v);
  }

  /** Packages and sizes are those of the metadata; a library without metadata keeps
      what its flat record says. */
  lemma MigrationKeepsLabels(f: File, l: LibraryId)
    requires WellFormed(f.legacy) && Migrate(f).Some?
    ensures var ms, rec := Metas(f.legacy), Library(Migrate(f).value.db, l);
            && (forall i | 0 <= i < |ms| && ms[i].l == l ::
                  rec.package == ms[i].meta.package && rec.sizeBytes == ms[i].meta.sizeBytes)
            && (!HasMeta(ms, l) ==>
                  rec.package == Library(f.db, l).package && rec.sizeBytes == Library(f.db, l).sizeBytes)
  {
    SeedRecords(f.db.libraries, Metas(f.legacy), l);
    AdoptMappingKeepsLabels(Db(f.db.volumes, Seed(f.db.libraries, Metas(f.legacy))), Mappings(f.legacy), l);
  }

  /** The only counters that go wrong are those that seeding reset under existing links. */
  lemma MigratedGap(f: File, l: LibraryId)
    requires WellFormed(f.legacy) && Migrate(f).Some? && Consistent(f.db)
    ensures Gap(Migrate(f).value.db, l) == if HasMeta(Metas(f.legacy), l) then |LinkedTo(f.db, l)| else 0
  {
    var ms := Metas(f.legacy);
    var seeded := Db(f.db.volumes, Seed(f.db.libraries, ms));
    AdoptMappingKeepsGap(seeded, Mappings(f.legacy), l);
    SeedRecords(f.db.libraries, ms, l);
    assert LinkedTo(seeded, l) == LinkedTo(f.db, l);
    assert VolumeCount(f.db, l) == |LinkedTo(f.db, l)|;
  }

  /** Seeding resets the counter of every library with metadata, so the counters of
      a migrated database match its links exactly when no flat record already
      linked a volume to such a library. */
  lemma MigratedCountersMatchIff(f: File)
    requires WellFormed(f.legacy) && Migrate(f).Some? && Consistent(f.db)
    ensures Consistent(Migrate(f).value.db) <==> forall m | m in Metas(f.legacy) :: LinkedTo(f.db, m.l) == {}
  {
    var ms, db' := Metas(f.legacy), Migrate(f).value.db;
    if forall m | m in ms :: LinkedTo(f.db, m.l) == {} {
      forall v | v in db'.volumes ensures db'.volumes[v].libraryId != "" {
        EachVolumeMigratesOnce(f, v);
      }
      forall l ensures VolumeCount(db', l) == |LinkedTo(db', l)| {
        MigratedGap(f, l);
        assert HasMeta(ms, l) ==> LinkedTo(f.db, l) == {};
      }
    } else {
      var m :| m in ms && LinkedTo(f.db, m.l) != {};
      MigratedGap(f, m.l);
      assert HasMeta(ms, m.l);
      assert VolumeCount(db', m.l) != |LinkedTo(db', m.l)|;
    }
  }

  /** A driver that wrote the flat buckets, an older one that wrote legacy metadata
      after a downgrade, and the upgrade again: a flat link to a library that also has
      legacy metadata loses its count. */
  lemma FlatLinkBesideMetadata() returns (f: File)
    ensures WellFormed(f.legacy) && Consistent(f.db) && Migrate(f).Some?
    ensures "v" in LinkedTo(Migrate(f).value.db, "a") && VolumeCount(Migrate(f).value.db, "a") == 0
    ensures !Consistent(Migrate(f).value.db)
  {
    var m := MetaEntry("a", Meta("p", 1));
    f := File(ONE_LINK, Legacy(Some([m]), None, false));
    OneLinkIsConsistent();
    assert m in Metas(f.legacy) && [m][..0] == [];
    MigratedCountersMatchIff(f);
  }

  /** From empty flat buckets the counters match the links and add up to the number
      of distinct volumes. */
  lemma MigratedCountersSumToVolumes(f: File)
    requires WellFormed(f.legacy) && Migrate(f).Some? && f.db == Db(map[], map[])
    ensures var db' := Migrate(f).value.db;
            && Consistent(db')
            && Sum(db'.libraries, db'.libraries.Keys, CountOf) == |db'.volumes|
            && (forall v :: v in db'.volumes <==> Listed(Mappings(f.legacy), v))
  {
    var db' := Migrate(f).value.db;
    assert forall l :: LinkedTo(f.db, l) == {} && VolumeCount(f.db, l) == 0;
    MigratedCountersMatchIff(f);
    CountersSumToVolumes(db', db'.libraries.Keys);
    forall v | v in db'.volumes ensures db'.volumes[v].libraryId in db'.libraries {
      var l := db'.volumes[v].libraryId;
      assert v in LinkedTo(db', l) && VolumeCount(db', l) == |LinkedTo(db', l)|;
    }
    assert VolumesIn(db', db'.libraries.Keys) == db'.volumes.Keys;
    forall v ensures v in db'.volumes <==> Listed(Mappings(f.legacy), v) {
      EachVolumeMigratesOnce(f, v);
    }
  }

  /** The legacy buckets are gone, and a second run changes nothing. */
  lemma MigrationIsIdempotent(f: File)
    requires Migrate(f).Some?
    ensures Migrate(f).value.legacy == NO_LEGACY
    ensures Migrate(Migrate(f).value) == Migrate(f)
  {
  }

  // ---- Migration against the live API ----

  /** When the replayed links are stamped, and whether they came from the cache. */
  datatype Stamps = Stamps(at: VolumeId -> int, fromCache: VolumeId -> bool)

  /** `AddLibrary` for each metadata entry whose package it accepts. */
  function ReplayMetas(db: Db, ms: seq<MetaEntry>): Db
    requires Readable(ms)
    decreases |ms|
  {
    if ms == [] then db
    else
      var before, m := ReplayMetas(db, ms[..|ms| - 1]), ms[|ms| - 1];
      AddLibrary(before, m.l, m.meta.package, m.meta.sizeBytes).UnwrapOr(before)
  }

  function ReplayVolumes(db: Db, l: LibraryId, vs: seq<VolumeId>, stamps: Stamps): Db
    decreases |vs|
  {
    if vs == [] then db
    else
      var before, v := ReplayVolumes(db, l, vs[..|vs| - 1], stamps), vs[|vs| - 1];
      LinkVolume(before, l, v, stamps.fromCache(v), stamps.at(v)).UnwrapOr(before)
  }

  function ReplayMapping(db: Db, es: seq<MappingEntry>, stamps: Stamps): Db
    decreases |es|
  {
    if es == [] then db
    else
      var e := es[|es| - 1];
      ReplayVolumes(ReplayMapping(db, es[..|es| - 1], stamps), e.l, e.volumes, stamps)
  }

  /** Equal up to the stamps of links, an absent record read as the zero record. */
  ghost predicate Alike(a: Db, b: Db) {
    && (forall v :: Link(a, v) == Link(b, v))
    && (forall l :: Library(a, l) == Library(b, l))
  }

  lemma LinkAlike(a: Db, b: Db, l: LibraryId, v: VolumeId, stamps: Stamps)
    requires Alike(a, b) && l != "" && v != ""
    ensures Alike(Adopt(a, l, v), LinkVolume(b, l, v, stamps.fromCache(v), stamps.at(v)).value)
  {
    var a', b' := Adopt(a, l, v), LinkVolume(b, l, v, stamps.fromCache(v), stamps.at(v)).value;
    assert Link(a, v) == Link(b, v);
    assert Library(a, l) == Library(b, l);
    forall w ensures Link(a', w) == Link(b', w) {
      assert Link(a, w) == Link(b, w);
    }
    forall m ensures Library(a', m) == Library(b', m) {
      assert Library(a, m) == Library(b, m);
    }
  }

  lemma {:induction false} VolumesReplayAlike(a: Db, b: Db, l: LibraryId, vs: seq<VolumeId>, stamps: Stamps)
    requires Alike(a, b) && l != "" && "" !in vs
    ensures Alike(AdoptAll(a, l, vs), ReplayVolumes(b, l, vs, stamps))
    decreases |vs|
  {
    if vs == [] {
    } else {
      VolumesReplayAlike(a, b, l, vs[..|vs| - 1], stamps);
      LinkAlike(AdoptAll(a, l, vs[..|vs| - 1]), ReplayVolumes(b, l, vs[..|vs| - 1], stamps), l, vs[|vs| - 1], stamps);
    }
  }

  lemma {:induction false} MappingReplaysAlike(a: Db, b: Db, es: seq<MappingEntry>, stamps: Stamps)
    requires Alike(a, b) && MappingSorted(es)
    ensures Alike(AdoptMapping(a, es), ReplayMapping(b, es, stamps))
    decreases |es|
  {
    if es == [] {
    } else {
      var n := |es| - 1;
      MappingReplaysAlike(a, b, es[..n], stamps);
      VolumesReplayAlike(AdoptMapping(a, es[..n]), ReplayMapping(b, es[..n], stamps), es[n].l, es[n].volumes, stamps);
    }
  }

  const EMPTY_DB := Db(map[], map[])

  /** Seeding and `AddLibrary` differ only in the size of libraries with a blank package. */
  lemma {:induction false} SeedAgainstReplay(ms: seq<MetaEntry>, l: LibraryId)
    requires Readable(ms) && MetaSorted(ms)
    ensures var a, b := Db(map[], Seed(map[], ms)), ReplayMetas(EMPTY_DB, ms);
            && b.volumes == map[]
            && (!HasMeta(ms, l) ==> Library(a, l) == Library(b, l) == ZERO_RECORD)
            && (forall i | 0 <= i < |ms| && ms[i].l == l ::
                  && Library(a, l) == LibraryRecord(ms[i].meta.package, ms[i].meta.sizeBytes, 0)
                  && Library(b, l) == if ms[i].meta.package == "" then ZERO_RECORD else Library(a, l))
    decreases |ms|
  {
    SeedRecords(map[], ms, l);
    if ms == [] {
    } else {
      var n := |ms| - 1;
      SeedAgainstReplay(ms[..n], l);
      BeforeIsIrreflexive(l);
      forall i | 0 <= i < n ensures ms[..n][i] == ms[i] && Before(ms[i].l, ms[n].l) {
      }
      if ms[n].l == l {
        assert !HasMeta(ms[..n], l);
      }
    }
  }

  /** A migration from empty flat buckets gives what replaying the legacy content
      through `AddLibrary` and `LinkVolume` gives, exactly when no metadata entry
      that `AddLibrary` would refuse for its blank package has a size. */
  lemma MigrationIsReplayIff(f: File, stamps: Stamps)
    requires WellFormed(f.legacy) && Migrate(f).Some? && f.db == EMPTY_DB
    ensures var ms := Metas(f.legacy);
            var replayed := ReplayMapping(ReplayMetas(EMPTY_DB, ms), Mappings(f.legacy), stamps);
            Alike(Migrate(f).value.db, replayed) <==>
              forall m | m in ms && m.meta.package == "" :: m.meta.sizeBytes == 0
  {
    var ms, es := Metas(f.legacy), Mappings(f.legacy);
    var a, b := Db(map[], Seed(map[], ms)), ReplayMetas(EMPTY_DB, ms);
    SeedAgainstReplay(ms, "");
    if forall m | m in ms && m.meta.package == "" :: m.meta.sizeBytes == 0 {
      forall l ensures Library(a, l) == Library(b, l) {
        SeedAgainstReplay(ms, l);
      }
      MappingReplaysAlike(a, b, es, stamps);
    } else {
      var m :| m in ms && m.meta.package == "" && m.meta.sizeBytes != 0;
      SeedAgainstReplay(ms, m.l);
      MappingReplaysAlike(b, b, es, stamps);
      AdoptMappingKeepsLabels(a, es, m.l);
      AdoptMappingKeepsLabels(b, es, m.l);
      assert Library(AdoptMapping(b, es), m.l) == Library(ReplayMapping(b, es, stamps), m.l);
    }
  }

  /** Legacy metadata with a size and no package: `AddLibrary` would have refused it. */
  lemma BlankPackageWithSize(stamps: Stamps) returns (f: File)
    ensures WellFormed(f.legacy) && Migrate(f).Some? && f.db == EMPTY_DB
    ensures !Alike(Migrate(f).value.db, ReplayMapping(ReplayMetas(EMPTY_DB, Metas(f.legacy)), Mappings(f.legacy), stamps))
  {
    var m := MetaEntry("a", Meta("", 5));
    f := File(EMPTY_DB, Legacy(Some([m]), None, false));
    assert m in Metas(f.legacy) && m.meta.package == "" && m.meta.sizeBytes != 0;
    MigrationIsReplayIff(f, stamps);
  }
}
