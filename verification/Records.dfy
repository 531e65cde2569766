/** The flat database schema: volume records, library records, and the five
    transactions of the library database as functions on values.

    A transaction is all or nothing, so each function returns `None` when the
    source returns an error; the database is then unchanged.
  */
module Records {
  import opened Options

  type LibraryId = string
  type VolumeId = string

  datatype VolumeRecord = VolumeRecord(libraryId: LibraryId, createdAt: int, fromCache: bool)

  datatype LibraryRecord = LibraryRecord(package: string, sizeBytes: int, volumeCount: int)

  datatype Db = Db(volumes: map<VolumeId, VolumeRecord>, libraries: map<LibraryId, LibraryRecord>)

  const ZERO_RECORD := LibraryRecord("", 0, 0)

  /** The record of a library; a missing key reads as the zero record. */
  function Library(db: Db, l: LibraryId): LibraryRecord {
    if l in db.libraries then db.libraries[l] else ZERO_RECORD
  }

  function VolumeCount(db: Db, l: LibraryId): int {
    Library(db, l).volumeCount
  }

  /** The library a volume is linked to, if any. */
  function Link(db: Db, v: VolumeId): Option<LibraryId> {
    if v in db.volumes then Some(db.volumes[v].libraryId) else None
  }

  /** The volumes linked to a library. */
  function LinkedTo(db: Db, l: LibraryId): set<VolumeId> {
    set v | v in db.volumes && db.volumes[v].libraryId == l
  }

  /** Every counter equals the number of volume records pointing at the library,
      and no volume record carries a blank library. */
  ghost predicate Consistent(db: Db) {
    && (forall v | v in db.volumes :: db.volumes[v].libraryId != "")
    && (forall l :: VolumeCount(db, l) == |LinkedTo(db, l)|)
  }

  /** The smallest database with a link: one volume, one library of package `p`. */
  const ONE_LINK := Db(map["v" := VolumeRecord("a", 0, false)], map["a" := LibraryRecord("p", 1, 1)])

  lemma OneLinkIsConsistent()
    ensures Consistent(ONE_LINK) && LinkedTo(ONE_LINK, "a") == {"v"}
  {
    assert LinkedTo(ONE_LINK, "a") == {"v"};
    assert forall l | l != "a" :: LinkedTo(ONE_LINK, l) == {};
  }

  // ---- Transactions ----

  function AddLibrary(db: Db, l: LibraryId, package: string, sizeBytes: int): Option<Db> {
    if l == "" || package == "" then None
    else
      Some(db.(libraries := db.libraries[l := Library(db, l).(package := package, sizeBytes := sizeBytes)]))
  }

  function RemoveLibrary(db: Db, l: LibraryId): Option<Db> {
    if l == "" then None else Some(db.(libraries := db.libraries - {l}))
  }

  function LinkVolume(db: Db, l: LibraryId, v: VolumeId, fromCache: bool, now: int): Option<Db> {
    if l == "" || v == "" then None
    else if v in db.volumes then Some(db)
    else
      var rec := Library(db, l);
      Some(Db(db.volumes[v := VolumeRecord(l, now, fromCache)],
              db.libraries[l := rec.(volumeCount := rec.volumeCount + 1)]))
  }

  /** What `UnlinkVolume` reports: the library and package of the removed link,
      both blank when the volume was not tracked. */
  datatype Unlinked = Unlinked(db: Db, libraryId: LibraryId, package: string)

  function UnlinkVolume(db: Db, v: VolumeId): Option<Unlinked> {
    if v == "" then None
    else if v !in db.volumes then Some(Unlinked(db, "", ""))
    else
      var l := db.volumes[v].libraryId;
      var rec := Library(db, l);
      var libraries :=
        if rec.volumeCount > 0 then db.libraries[l := rec.(volumeCount := rec.volumeCount - 1)]
        else db.libraries;
      Some(Unlinked(Db(db.volumes - {v}, libraries), l, rec.package))
  }

  // ---- What each transaction does to links and counters ----

  lemma AddLibraryKeeps(db: Db, l: LibraryId, package: string, sizeBytes: int)
    requires Consistent(db)
    requires l != "" && package != ""
    ensures var db' := AddLibrary(db, l, package, sizeBytes).value;
            Consistent(db') && db'.volumes == db.volumes
  {
    var db' := AddLibrary(db, l, package, sizeBytes).value;
    forall m ensures VolumeCount(db', m) == |LinkedTo(db', m)| {
      assert LinkedTo(db', m) == LinkedTo(db, m);
      assert VolumeCount(db, m) == |LinkedTo(db, m)|;
    }
  }

  /** Dropping a record keeps the counters right exactly when nothing links to it. */
  lemma RemoveLibraryKeepsIff(db: Db, l: LibraryId)
    requires Consistent(db)
    requires l != ""
    ensures Consistent(RemoveLibrary(db, l).value) <==> LinkedTo(db, l) == {}
  {
    var db' := RemoveLibrary(db, l).value;
    forall m ensures LinkedTo(db', m) == LinkedTo(db, m) {
    }
    assert VolumeCount(db', l) == 0;
    forall m | m != l ensures VolumeCount(db', m) == |LinkedTo(db', m)| {
      assert VolumeCount(db, m) == |LinkedTo(db, m)|;
    }
    if LinkedTo(db, l) != {} {
      assert VolumeCount(db', l) != |LinkedTo(db', l)|;
    }
  }

  lemma LinkVolumeKeeps(db: Db, l: LibraryId, v: VolumeId, fromCache: bool, now: int)
    requires Consistent(db)
    requires l != "" && v != "" && v !in db.volumes
    ensures var db' := LinkVolume(db, l, v, fromCache, now).value;
            && Consistent(db')
            && LinkedTo(db', l) == LinkedTo(db, l) + {v}
            && VolumeCount(db', l) == VolumeCount(db, l) + 1
            && (forall m | m != l :: LinkedTo(db', m) == LinkedTo(db, m))
  {
    var db' := LinkVolume(db, l, v, fromCache, now).value;
    assert LinkedTo(db', l) == LinkedTo(db, l) + {v};
    assert v !in LinkedTo(db, l);
    forall m | m != l ensures LinkedTo(db', m) == LinkedTo(db, m) && VolumeCount(db', m) == |LinkedTo(db', m)| {
      assert LinkedTo(db', m) == LinkedTo(db, m);
      assert VolumeCount(db, m) == |LinkedTo(db, m)|;
    }
    assert VolumeCount(db, l) == |LinkedTo(db, l)|;
  }

  /** In a consistent database the `VolumeCount > 0` guard never suppresses a
      decrement, and unlinking removes exactly one link. */
  lemma UnlinkVolumeKeeps(db: Db, v: VolumeId)
    requires Consistent(db)
    requires v != "" && v in db.volumes
    ensures var l, db' := db.volumes[v].libraryId, UnlinkVolume(db, v).value.db;
            && Consistent(db')
            && VolumeCount(db, l) > 0
            && VolumeCount(db', l) == VolumeCount(db, l) - 1
            && LinkedTo(db', l) == LinkedTo(db, l) - {v}
            && (forall m | m != l :: LinkedTo(db', m) == LinkedTo(db, m))
  {
    var l, db' := db.volumes[v].libraryId, UnlinkVolume(db, v).value.db;
    assert v in LinkedTo(db, l);
    assert VolumeCount(db, l) == |LinkedTo(db, l)|;
    assert LinkedTo(db', l) == LinkedTo(db, l) - {v};
    forall m | m != l ensures LinkedTo(db', m) == LinkedTo(db, m) && VolumeCount(db', m) == |LinkedTo(db', m)| {
      assert LinkedTo(db', m) == LinkedTo(db, m);
      assert VolumeCount(db, m) == |LinkedTo(db, m)|;
    }
  }

  // ---- What each transaction writes, and when it fails ----

  /** The same record, or none, under a key. */
  ghost predicate SameAt<K, V>(m: map<K, V>, m': map<K, V>, k: K) {
    (k in m' <==> k in m) && (k in m ==> m'[k] == m[k])
  }

  /** Only blank arguments are refused.  A library that already has a record is
      relabelled and keeps its counter; no other record is touched. */
  lemma AddLibraryLabels(db: Db, l: LibraryId, package: string, sizeBytes: int)
    ensures AddLibrary(db, l, package, sizeBytes).None? <==> l == "" || package == ""
    ensures AddLibrary(db, l, package, sizeBytes).Some? ==>
              var db' := AddLibrary(db, l, package, sizeBytes).value;
              && l in db'.libraries && db'.volumes == db.volumes
              && db'.libraries[l].package == package && db'.libraries[l].sizeBytes == sizeBytes
              && VolumeCount(db', l) == VolumeCount(db, l)
              && (forall m | m != l :: SameAt(db.libraries, db'.libraries, m))
  {
  }

  /** A new link is stamped and says where the library came from; the library keeps
      its label and size.  A volume that has a link keeps the one it has. */
  lemma LinkVolumeStamps(db: Db, l: LibraryId, v: VolumeId, fromCache: bool, now: int)
    ensures LinkVolume(db, l, v, fromCache, now).None? <==> l == "" || v == ""
    ensures LinkVolume(db, l, v, fromCache, now).Some? ==>
              var db' := LinkVolume(db, l, v, fromCache, now).value;
              && v in db'.volumes && (v in db.volumes ==> db' == db)
              && (v !in db.volumes ==>
                    && db'.volumes[v].libraryId == l && db'.volumes[v].createdAt == now
                    && db'.volumes[v].fromCache == fromCache
                    && VolumeCount(db', l) == VolumeCount(db, l) + 1
                    && Library(db', l).package == Library(db, l).package
                    && Library(db', l).sizeBytes == Library(db, l).sizeBytes)
              && (forall u | u != v :: SameAt(db.volumes, db'.volumes, u))
              && (forall m | m != l :: SameAt(db.libraries, db'.libraries, m))
  {
  }

  /** The record of the volume goes, and what it said is reported with the label of
      its library, which keeps label and size. */
  lemma UnlinkVolumeReports(db: Db, v: VolumeId)
    ensures UnlinkVolume(db, v).None? <==> v == ""
    ensures UnlinkVolume(db, v).Some? ==>
              var tx := UnlinkVolume(db, v).value;
              && v !in tx.db.volumes
              && Some(tx.libraryId) == (if v in db.volumes then Link(db, v) else Some(""))
              && (v in db.volumes ==> tx.package == Library(db, tx.libraryId).package)
              && (v !in db.volumes ==> tx.db == db && tx.package == "")
              && (forall u | u != v :: SameAt(db.volumes, tx.db.volumes, u))
              && (forall m | m != tx.libraryId :: SameAt(db.libraries, tx.db.libraries, m))
              && Library(tx.db, tx.libraryId).package == Library(db, tx.libraryId).package
              && Library(tx.db, tx.libraryId).sizeBytes == Library(db, tx.libraryId).sizeBytes
  {
  }

  /** Unlinking a volume right after linking it restores every link and counter. */
  lemma UnlinkUndoesLink(db: Db, l: LibraryId, v: VolumeId, fromCache: bool, now: int)
    requires Consistent(db)
    requires l != "" && v != "" && v !in db.volumes
    ensures var linked := LinkVolume(db, l, v, fromCache, now).value;
            var back := UnlinkVolume(linked, v).value;
            && back.libraryId == l
            && back.db.volumes == db.volumes
            && (forall m :: Library(back.db, m) == Library(db, m))
  {
    LinkVolumeKeeps(db, l, v, fromCache, now);
    assert VolumeCount(db, l) == |LinkedTo(db, l)|;
  }
}
