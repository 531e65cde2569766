/** The library database: each method is one transaction over the two flat buckets. */
module Database {
  import opened Options
  import opened Records
  import opened Aggregates

  /** What the gauges are seeded from; a package without records has no key. */
  datatype Snapshot = Snapshot(cachedCount: map<string, int>, cachedBytes: map<string, int>, volumeLinks: map<string, int>)

  /** A missing key of a Go map of numbers reads as zero. */
  function Get(m: map<string, int>, k: string): int {
    if k in m then m[k] else 0
  }

  /** One package: a key exactly when there are records, and the direct aggregates. */
  ghost predicate DescribesPackage(snap: Snapshot, libraries: Libraries, p: string) {
    var present := p != "" && CachedCount(libraries, p) > 0;
    && (p in snap.cachedCount <==> present)
    && (p in snap.cachedBytes <==> present)
    && (p in snap.volumeLinks <==> present)
    && (p != "" ==>
          && Get(snap.cachedCount, p) == CachedCount(libraries, p)
          && Get(snap.cachedBytes, p) == CachedBytes(libraries, p)
          && Get(snap.volumeLinks, p) == VolumeLinks(libraries, p))
  }

  ghost predicate Describes(snap: Snapshot, libraries: Libraries) {
    forall p :: DescribesPackage(snap, libraries, p)
  }

  // ---- Proofs used by the methods ----

  lemma LinkVolumeConsistent(db: Db, l: LibraryId, v: VolumeId, fromCache: bool, now: int)
    requires l != "" && v != "" && v !in db.volumes
    ensures Consistent(db) ==> Consistent(Records.LinkVolume(db, l, v, fromCache, now).value)
  {
    if Consistent(db) {
      LinkVolumeKeeps(db, l, v, fromCache, now);
    }
  }

  lemma UnlinkVolumeConsistent(db: Db, v: VolumeId)
    requires v != "" && v in db.volumes
    ensures Consistent(db) ==> Consistent(Records.UnlinkVolume(db, v).value.db)
  {
    if Consistent(db) {
      UnlinkVolumeKeeps(db, v);
    }
  }

  ghost function Only(libraries: Libraries, ls: set<LibraryId>): Libraries {
    map l | l in libraries && l in ls :: libraries[l]
  }

  lemma EmptySnapshot(libraries: Libraries)
    ensures Describes(Snapshot(map[], map[], map[]), Only(libraries, {}))
  {
    var none := Only(libraries, {});
    forall p ensures DescribesPackage(Snapshot(map[], map[], map[]), none, p) {
      assert Labelled(none, none.Keys, p) == {};
    }
  }

  lemma NewRecordAdds(a: Libraries, l: LibraryId, r: LibraryRecord)
    requires l !in a
    ensures var b := a[l := r];
            && CachedCount(b, r.package) == CachedCount(a, r.package) + 1
            && CachedBytes(b, r.package) == CachedBytes(a, r.package) + r.sizeBytes
            && VolumeLinks(b, r.package) == VolumeLinks(a, r.package) + r.volumeCount
  {
    var b := a[l := r];
    var ls := Labelled(a, a.Keys, r.package);
    var ms := Labelled(b, b.Keys, r.package);
    assert ms == ls + {l} && ms - {l} == ls;
    SumWithout(b, ms, SizeOf, l);
    SumWithout(b, ms, CountOf, l);
    SumDependsOnValues(a, b, ls, SizeOf);
    SumDependsOnValues(a, b, ls, CountOf);
  }

  /** What one more record adds to the aggregates of a package. */
  lemma AddOneRecord(libraries: Libraries, done: set<LibraryId>, l: LibraryId, p: string)
    requires l in libraries && l !in done
    ensures var a, b, r := Only(libraries, done), Only(libraries, done + {l}), libraries[l];
            && CachedCount(b, p) == CachedCount(a, p) + (if p == r.package then 1 else 0)
            && CachedBytes(b, p) == CachedBytes(a, p) + (if p == r.package then r.sizeBytes else 0)
            && VolumeLinks(b, p) == VolumeLinks(a, p) + (if p == r.package then r.volumeCount else 0)
  {
    var a, b, r := Only(libraries, done), Only(libraries, done + {l}), libraries[l];
    assert b == a[l := r];
    if p != r.package {
      OtherPackagesKeep(a, l, r, p);
    } else {
      NewRecordAdds(a, l, r);
    }
  }

  function Accumulate(snap: Snapshot, r: LibraryRecord): Snapshot {
    if r.package == "" then snap
    else
      Snapshot(snap.cachedCount[r.package := Get(snap.cachedCount, r.package) + 1],
               snap.cachedBytes[r.package := Get(snap.cachedBytes, r.package) + r.sizeBytes],
               snap.volumeLinks[r.package := Get(snap.volumeLinks, r.package) + r.volumeCount])
  }

  lemma DescribesOneMore(snap: Snapshot, libraries: Libraries, done: set<LibraryId>, l: LibraryId)
    requires l in libraries && l !in done
    requires Describes(snap, Only(libraries, done))
    ensures Describes(Accumulate(snap, libraries[l]), Only(libraries, done + {l}))
  {
    forall p ensures DescribesPackage(Accumulate(snap, libraries[l]), Only(libraries, done + {l}), p) {
      assert DescribesPackage(snap, Only(libraries, done), p);
      AddOneRecord(libraries, done, l, p);
    }
  }

  // ---- The database object ----

  class Database {
    var volumes: map<VolumeId, VolumeRecord>
    var libraries: map<LibraryId, LibraryRecord>

    function Contents(): Db
      reads this
    {
      Db(volumes, libraries)
    }

    /** A database file with these contents is opened. */
    constructor (db: Db)
      ensures Contents() == db
    {
      volumes, libraries := db.volumes, db.libraries;
    }

    method AddLibrary(l: LibraryId, package: string, sizeBytes: int) returns (ok: bool)
      modifies this
      ensures ok <==> l != "" && package != ""
      ensures Contents() ==
              if ok then Records.AddLibrary(old(Contents()), l, package, sizeBytes).value else old(Contents())
      ensures ok ==> volumes == old(volumes) && VolumeCount(Contents(), l) == old(VolumeCount(Contents(), l))
      ensures ok ==> l in libraries && libraries[l].package == package && libraries[l].sizeBytes == sizeBytes
    {
      ok := l != "" && package != "";
      if ok {
        var rec := if l in libraries then libraries[l] else ZERO_RECORD;
        rec := rec.(package := package, sizeBytes := sizeBytes);
        libraries := libraries[l := rec];
      }
    }

    method RemoveLibrary(l: LibraryId) returns (ok: bool)
      modifies this
      ensures ok <==> l != ""
      ensures Contents() == if ok then Records.RemoveLibrary(old(Contents()), l).value else old(Contents())
      ensures ok ==> libraries == old(libraries) - {l} && volumes == old(volumes)
    {
      ok := l != "";
      if ok {
        libraries := libraries - {l};
      }
    }

    /** A volume is linked at most once: linking it again changes nothing. */
    method LinkVolume(l: LibraryId, v: VolumeId, fromCache: bool, now: int) returns (ok: bool)
      modifies this
      ensures ok <==> l != "" && v != ""
      ensures Contents() ==
              if ok then Records.LinkVolume(old(Contents()), l, v, fromCache, now).value else old(Contents())
      ensures old(v in volumes) ==> Contents() == old(Contents())
      ensures ok && v !in old(volumes) ==> volumes == old(volumes)[v := VolumeRecord(l, now, fromCache)]
      ensures old(Consistent(Contents())) ==> Consistent(Contents())
    {
      ok := l != "" && v != "";
      if ok && v !in volumes {
        LinkVolumeConsistent(Contents(), l, v, fromCache, now);
        volumes := volumes[v := VolumeRecord(l, now, fromCache)];
        var rec := if l in libraries then libraries[l] else ZERO_RECORD;
        rec := rec.(volumeCount := rec.volumeCount + 1);
        libraries := libraries[l := rec];
      }
    }

    /** Reports the library and package of the removed link, blank when there was none. */
    method UnlinkVolume(v: VolumeId) returns (ok: bool, l: LibraryId, package: string)
      modifies this
      ensures ok <==> v != ""
      ensures !ok ==> Contents() == old(Contents()) && l == "" && package == ""
      ensures ok ==> Unlinked(Contents(), l, package) == Records.UnlinkVolume(old(Contents()), v).value
      ensures ok ==> volumes == old(volumes) - {v} && l == old(Link(Contents(), v)).UnwrapOr("")
      ensures ok && v in old(volumes) ==> package == old(Library(Contents(), volumes[v].libraryId).package)
      ensures old(Consistent(Contents())) ==> Consistent(Contents())
    {
      l, package := "", "";
      ok := v != "";
      if ok && v in volumes {
        UnlinkVolumeConsistent(Contents(), v);
        l := volumes[v].libraryId;
        volumes := volumes - {v};
        var rec := if l in libraries then libraries[l] else ZERO_RECORD;
        package := rec.package;
        if rec.volumeCount > 0 {
          rec := rec.(volumeCount := rec.volumeCount - 1);
          libraries := libraries[l := rec];
        }
      }
    }

    /** The library of a volume, blank when the volume is not tracked. */
    method GetLibraryForVolume(v: VolumeId) returns (r: Option<LibraryId>)
      ensures r == if v == "" then None else Some(Link(Contents(), v).UnwrapOr(""))
    {
      if v == "" {
        return None;
      }
      r := Some(if v in volumes then volumes[v].libraryId else "");
    }

    method GetLibrary(l: LibraryId) returns (r: Option<(LibraryRecord, bool)>)
      ensures r.None? <==> l == ""
      ensures r.Some? ==> r.value == (Library(Contents(), l), l in libraries)
    {
      if l == "" {
        return None;
      }
      r := Some(if l in libraries then (libraries[l], true) else (ZERO_RECORD, false));
    }

    /** One pass over the records, in any order. */
    method TakeSnapshot() returns (snap: Snapshot)
      ensures Describes(snap, libraries)
    {
      snap := Snapshot(map[], map[], map[]);
      var todo := libraries.Keys;
      ghost var done := {};
      EmptySnapshot(libraries);
      while todo != {}
        invariant done !! todo && done + todo == libraries.Keys
        invariant Describes(snap, Only(libraries, done))
        decreases todo
      {
        var l :| l in todo;
        todo := todo - {l};
        var rec := libraries[l];
        DescribesOneMore(snap, libraries, done, l);
        if rec.package != "" {
          var p := rec.package;
          snap := Snapshot(snap.cachedCount[p := Get(snap.cachedCount, p) + 1],
                           snap.cachedBytes[p := Get(snap.cachedBytes, p) + rec.sizeBytes],
                           snap.volumeLinks[p := Get(snap.volumeLinks, p) + rec.volumeCount]);
        }
        done := done + {l};
      }
      assert Only(libraries, done) == libraries;
    }
  }

  /** A snapshot of a consistent database counts the volumes that use each package. */
  lemma SnapshotCountsVolumes(db: Db, snap: Snapshot, package: string)
    requires Consistent(db) && Describes(snap, db.libraries) && package != ""
    ensures Get(snap.volumeLinks, package) == |VolumesOf(db, package)|
  {
    assert DescribesPackage(snap, db.libraries, package);
    VolumeLinksCountsVolumes(db, package);
  }
}
