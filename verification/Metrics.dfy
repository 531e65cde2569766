/** The metrics listener: three gauges per package, overwritten by events. */
module Metrics {
  import opened Options
  import opened Records
  import opened Aggregates
  import opened Database

  /** The gauge series; a series that was never set reads as zero. */
  datatype Gauges = Gauges(cached: map<string, int>, cachedBytes: map<string, int>, links: map<string, int>)

  function SetCached(g: Gauges, p: string, count: int, bytes: int): Gauges {
    g.(cached := g.cached[p := count], cachedBytes := g.cachedBytes[p := bytes])
  }

  function SetLinks(g: Gauges, p: string, n: int): Gauges {
    g.(links := g.links[p := n])
  }

  /** The gauges of a package show what a fresh snapshot of the records would. */
  ghost predicate AgreeOn(g: Gauges, libraries: Libraries, p: string) {
    && Get(g.cached, p) == CachedCount(libraries, p)
    && Get(g.cachedBytes, p) == CachedBytes(libraries, p)
    && Get(g.links, p) == VolumeLinks(libraries, p)
  }

  ghost predicate Agree(g: Gauges, libraries: Libraries) {
    forall p | p != "" :: AgreeOn(g, libraries, p)
  }

  /** The gauges of every other package agree. */
  ghost predicate AgreeBut(g: Gauges, libraries: Libraries, p: string) {
    forall q | q != "" && q != p :: AgreeOn(g, libraries, q)
  }

  /** The series of one package has a new value, every other series its old one or none. */
  ghost predicate OnlySeries(m: map<string, int>, m': map<string, int>, p: string, n: int) {
    && p in m' && m'[p] == n
    && forall q | q != p :: (q in m' <==> q in m) && (q in m ==> m'[q] == m[q])
  }

  lemma OnlySeriesIsUpdate(m: map<string, int>, m': map<string, int>, p: string, n: int)
    requires OnlySeries(m, m', p, n)
    ensures m' == m[p := n]
  {
  }

  /** Showing a package's values puts it right, and can do nothing about the others. */
  lemma ShownAgrees(g: Gauges, g': Gauges, p: string, libraries: Libraries)
    requires p != ""
    requires forall q | q != p ::
               Get(g'.cached, q) == Get(g.cached, q) && Get(g'.cachedBytes, q) == Get(g.cachedBytes, q) &&
               Get(g'.links, q) == Get(g.links, q)
    ensures Agree(g', libraries) <==> AgreeBut(g, libraries, p) && AgreeOn(g', libraries, p)
  {
    forall q | q != "" && q != p ensures AgreeOn(g', libraries, q) <==> AgreeOn(g, libraries, q) {
    }
  }

  /** Agreement is agreement with every snapshot that describes the records. */
  lemma AgreeMeansSnapshot(g: Gauges, libraries: Libraries, snap: Snapshot)
    requires Describes(snap, libraries)
    ensures Agree(g, libraries) <==>
            forall p | p != "" ::
              && Get(g.cached, p) == Get(snap.cachedCount, p)
              && Get(g.cachedBytes, p) == Get(snap.cachedBytes, p)
              && Get(g.links, p) == Get(snap.volumeLinks, p)
  {
    forall p | p != ""
      ensures AgreeOn(g, libraries, p) <==>
              && Get(g.cached, p) == Get(snap.cachedCount, p)
              && Get(g.cachedBytes, p) == Get(snap.cachedBytes, p)
              && Get(g.links, p) == Get(snap.volumeLinks, p)
    {
      assert DescribesPackage(snap, libraries, p);
    }
  }

  class LibraryListener {
    var cached: map<string, int>
    var cachedBytes: map<string, int>
    var links: map<string, int>

    function Values(): Gauges
      reads this
    {
      Gauges(cached, cachedBytes, links)
    }

    /** The series may hold anything before the first snapshot. */
    constructor (g: Gauges)
      ensures Values() == g
    {
      cached, cachedBytes, links := g.cached, g.cachedBytes, g.links;
    }

    method OnLibraryCached(p: string, count: int, bytes: int)
      modifies this
      ensures OnlySeries(old(cached), cached, p, count) && OnlySeries(old(cachedBytes), cachedBytes, p, bytes)
      ensures links == old(links)
      ensures forall libraries: Libraries | p != "" :: Agree(Values(), libraries) <==>
                AgreeBut(old(Values()), libraries, p) && Get(old(links), p) == VolumeLinks(libraries, p) &&
                count == CachedCount(libraries, p) && bytes == CachedBytes(libraries, p)
    {
      cached := cached[p := count];
      cachedBytes := cachedBytes[p := bytes];
      forall libraries: Libraries | p != ""
        ensures Agree(Values(), libraries) <==> AgreeBut(old(Values()), libraries, p) && AgreeOn(Values(), libraries, p)
      {
        ShownAgrees(old(Values()), Values(), p, libraries);
      }
    }

    method OnLibraryEvicted(p: string, count: int, bytes: int)
      modifies this
      ensures OnlySeries(old(cached), cached, p, count) && OnlySeries(old(cachedBytes), cachedBytes, p, bytes)
      ensures links == old(links)
      ensures forall libraries: Libraries | p != "" :: Agree(Values(), libraries) <==>
                AgreeBut(old(Values()), libraries, p) && Get(old(links), p) == VolumeLinks(libraries, p) &&
                count == CachedCount(libraries, p) && bytes == CachedBytes(libraries, p)
    {
      cached := cached[p := count];
      cachedBytes := cachedBytes[p := bytes];
      forall libraries: Libraries | p != ""
        ensures Agree(Values(), libraries) <==> AgreeBut(old(Values()), libraries, p) && AgreeOn(Values(), libraries, p)
      {
        ShownAgrees(old(Values()), Values(), p, libraries);
      }
    }

    method OnVolumeLinked(p: string, n: int)
      modifies this
      ensures OnlySeries(old(links), links, p, n)
      ensures cached == old(cached) && cachedBytes == old(cachedBytes)
      ensures forall libraries: Libraries | p != "" :: Agree(Values(), libraries) <==>
                AgreeBut(old(Values()), libraries, p) && n == VolumeLinks(libraries, p) &&
                Get(old(cached), p) == CachedCount(libraries, p) && Get(old(cachedBytes), p) == CachedBytes(libraries, p)
    {
      links := links[p := n];
      forall libraries: Libraries | p != ""
        ensures Agree(Values(), libraries) <==> AgreeBut(old(Values()), libraries, p) && AgreeOn(Values(), libraries, p)
      {
        ShownAgrees(old(Values()), Values(), p, libraries);
      }
    }

    method OnVolumeUnlinked(p: string, n: int)
      modifies this
      ensures OnlySeries(old(links), links, p, n)
      ensures cached == old(cached) && cachedBytes == old(cachedBytes)
      ensures forall libraries: Libraries | p != "" :: Agree(Values(), libraries) <==>
                AgreeBut(old(Values()), libraries, p) && n == VolumeLinks(libraries, p) &&
                Get(old(cached), p) == CachedCount(libraries, p) && Get(old(cachedBytes), p) == CachedBytes(libraries, p)
    {
      links := links[p := n];
      forall libraries: Libraries | p != ""
        ensures Agree(Values(), libraries) <==> AgreeBut(old(Values()), libraries, p) && AgreeOn(Values(), libraries, p)
      {
        ShownAgrees(old(Values()), Values(), p, libraries);
      }
    }

    /** Set one series per entry, in any order, on gauges that were just reset. */
    static method Refill(source: map<string, int>) returns (gauge: map<string, int>)
      ensures gauge == source
    {
      gauge := map[];
      var todo := source.Keys;
      while todo != {}
        invariant todo <= source.Keys && gauge.Keys == source.Keys - todo
        invariant forall p | p in gauge :: gauge[p] == source[p]
        decreases todo
      {
        var p :| p in todo;
        todo := todo - {p};
        gauge := gauge[p := source[p]];
      }
    }

    /** Stale series are dropped, so the gauges agree with the snapshot's database
        whatever they showed before. */
    method OnSnapshot(snap: Snapshot)
      modifies this
      ensures Values() == Gauges(snap.cachedCount, snap.cachedBytes, snap.volumeLinks)
      ensures forall libraries: Libraries :: Describes(snap, libraries) ==> Agree(Values(), libraries)
    {
      cached, cachedBytes, links := map[], map[], map[];
      cached := Refill(snap.cachedCount);
      cachedBytes := Refill(snap.cachedBytes);
      links := Refill(snap.volumeLinks);
      forall libraries: Libraries | Describes(snap, libraries) ensures Agree(Values(), libraries) {
        AgreeMeansSnapshot(Values(), libraries, snap);
      }
    }
  }
}
