/** The per-package aggregates behind the gauges, computed directly from the records. */
module Aggregates {
  import opened Options
  import opened Records

  type Libraries = map<LibraryId, LibraryRecord>

  /** The records among `ls` that carry a package label. */
  function Labelled(libraries: Libraries, ls: set<LibraryId>, package: string): set<LibraryId> {
    set l | l in ls && l in libraries && libraries[l].package == package
  }

  ghost function Sum(libraries: Libraries, ls: set<LibraryId>, f: LibraryRecord -> int): int
    requires ls <= libraries.Keys
  {
    if ls == {} then 0
    else
      var l :| l in ls;
      f(libraries[l]) + Sum(libraries, ls - {l}, f)
  }

  function SizeOf(r: LibraryRecord): int { r.sizeBytes }

  function CountOf(r: LibraryRecord): int { r.volumeCount }

  function CachedCount(libraries: Libraries, package: string): nat {
    |Labelled(libraries, libraries.Keys, package)|
  }

  ghost function CachedBytes(libraries: Libraries, package: string): int {
    Sum(libraries, Labelled(libraries, libraries.Keys, package), SizeOf)
  }

  ghost function VolumeLinks(libraries: Libraries, package: string): int {
    Sum(libraries, Labelled(libraries, libraries.Keys, package), CountOf)
  }

  /** The volumes whose library carries a package label. */
  function VolumesOf(db: Db, package: string): set<VolumeId> {
    set v | v in db.volumes && Library(db, db.volumes[v].libraryId).package == package
  }

  // ---- Sums do not depend on the order ----

  lemma {:induction false} SumWithout(libraries: Libraries, ls: set<LibraryId>, f: LibraryRecord -> int, l: LibraryId)
    requires ls <= libraries.Keys && l in ls
    ensures Sum(libraries, ls, f) == f(libraries[l]) + Sum(libraries, ls - {l}, f)
    decreases ls
  {
    var m :| m in ls && Sum(libraries, ls, f) == f(libraries[m]) + Sum(libraries, ls - {m}, f);
    if m == l {
    } else {
      SumWithout(libraries, ls - {m}, f, l);
      SumWithout(libraries, ls - {l}, f, m);
      assert ls - {m} - {l} == ls - {l} - {m};
    }
  }

  lemma {:induction false} SumDependsOnValues(a: Libraries, b: Libraries, ls: set<LibraryId>, f: LibraryRecord -> int)
    requires ls <= a.Keys && ls <= b.Keys
    requires forall l | l in ls :: f(a[l]) == f(b[l])
    ensures Sum(a, ls, f) == Sum(b, ls, f)
    decreases ls
  {
    if ls == {} {
    } else {
      var l :| l in ls;
      SumWithout(a, ls, f, l);
      SumWithout(b, ls, f, l);
      SumDependsOnValues(a, b, ls - {l}, f);
    }
  }

  // ---- Counters against links ----

  function VolumesIn(db: Db, ls: set<LibraryId>): set<VolumeId> {
    set v | v in db.volumes && db.volumes[v].libraryId in ls
  }

  lemma {:induction false} CountersSumToVolumes(db: Db, ls: set<LibraryId>)
    requires Consistent(db) && ls <= db.libraries.Keys
    ensures Sum(db.libraries, ls, CountOf) == |VolumesIn(db, ls)|
    decreases ls
  {
    if ls == {} {
      assert VolumesIn(db, ls) == {};
    } else {
      var l :| l in ls;
      SumWithout(db.libraries, ls, CountOf, l);
      CountersSumToVolumes(db, ls - {l});
      assert VolumesIn(db, ls) == VolumesIn(db, ls - {l}) + LinkedTo(db, l);
      assert VolumeCount(db, l) == |LinkedTo(db, l)|;
    }
  }

  /** The sum of the counters of a package is the number of volumes that use it. */
  lemma VolumeLinksCountsVolumes(db: Db, package: string)
    requires Consistent(db) && package != ""
    ensures VolumeLinks(db.libraries, package) == |VolumesOf(db, package)|
  {
    var ls := Labelled(db.libraries, db.libraries.Keys, package);
    CountersSumToVolumes(db, ls);
    assert VolumesIn(db, ls) == VolumesOf(db, package);
  }

  // ---- How one changed record moves the aggregates ----

  /** A package that a record neither carried nor carries now keeps its aggregates. */
  lemma OtherPackagesKeep(a: Libraries, l: LibraryId, r: LibraryRecord, package: string)
    requires r.package != package && (l in a ==> a[l].package != package)
    ensures CachedCount(a[l := r], package) == CachedCount(a, package)
    ensures CachedBytes(a[l := r], package) == CachedBytes(a, package)
    ensures VolumeLinks(a[l := r], package) == VolumeLinks(a, package)
  {
    var ls := Labelled(a, a.Keys, package);
    assert Labelled(a[l := r], a[l := r].Keys, package) == ls;
    SumDependsOnValues(a, a[l := r], ls, SizeOf);
    SumDependsOnValues(a, a[l := r], ls, CountOf);
  }

  lemma OtherPackagesKeepOnRemoval(a: Libraries, l: LibraryId, package: string)
    requires l in a ==> a[l].package != package
    ensures CachedCount(a - {l}, package) == CachedCount(a, package)
    ensures CachedBytes(a - {l}, package) == CachedBytes(a, package)
    ensures VolumeLinks(a - {l}, package) == VolumeLinks(a, package)
  {
    var ls := Labelled(a, a.Keys, package);
    assert Labelled(a - {l}, (a - {l}).Keys, package) == ls;
    SumDependsOnValues(a, a - {l}, ls, SizeOf);
    SumDependsOnValues(a, a - {l}, ls, CountOf);
  }

  /** Changing only the counter of a record moves only the links of its package. */
  lemma CounterMovesLinks(a: Libraries, l: LibraryId, n: int)
    requires l in a
    ensures var b, package := a[l := a[l].(volumeCount := n)], a[l].package;
            && CachedCount(b, package) == CachedCount(a, package)
            && CachedBytes(b, package) == CachedBytes(a, package)
            && VolumeLinks(b, package) == VolumeLinks(a, package) - a[l].volumeCount + n
  {
    var b, package := a[l := a[l].(volumeCount := n)], a[l].package;
    var ls := Labelled(a, a.Keys, package);
    assert Labelled(b, b.Keys, package) == ls;
    SumDependsOnValues(a, b, ls, SizeOf);
    SumWithout(a, ls, CountOf, l);
    SumWithout(b, ls, CountOf, l);
    SumDependsOnValues(a, b, ls - {l}, CountOf);
  }

  /** Removing a record takes its counter out of the links of its package. */
  lemma RemovalMovesLinks(a: Libraries, l: LibraryId)
    requires l in a
    ensures var package := a[l].package;
            && VolumeLinks(a - {l}, package) == VolumeLinks(a, package) - a[l].volumeCount
            && CachedCount(a - {l}, package) == CachedCount(a, package) - 1
  {
    var package := a[l].package;
    var b := a - {l};
    var ls := Labelled(a, a.Keys, package);
    assert Labelled(b, b.Keys, package) == ls - {l};
    SumWithout(a, ls, CountOf, l);
    SumDependsOnValues(a, b, ls - {l}, CountOf);
  }

  /** Relabelling a record takes it out of the cached count of its old package. */
  lemma RelabelMovesCount(a: Libraries, l: LibraryId, r: LibraryRecord)
    requires l in a && r.package != a[l].package
    ensures CachedCount(a[l := r], a[l].package) == CachedCount(a, a[l].package) - 1
  {
    var ls := Labelled(a, a.Keys, a[l].package);
    assert Labelled(a[l := r], a[l := r].Keys, a[l].package) == ls - {l};
  }
}
