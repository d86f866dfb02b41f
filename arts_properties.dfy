/**
 * What resolve_art_url guarantees: when it probes, what it can return, that it
 * terminates within the length of the fallback chain, and what the shipped
 * ARTS_ASSIGNMENTS table makes of it.
 */
module ArtsProperties {
  import opened Wrappers
  import opened Arts

  /** `target` lies on the fallback chain that starts at `from` (both in the table). */
  predicate OnChain(table: ArtTable, rank: map<string, nat>, from: string, target: string)
    requires RankedBy(table, rank)
    decreases if from in table then rank[from] + 1 else 0
  {
    && from in table
    && target in table
    && (|| target == from
        || (table[from].fallback.Some? && OnChain(table, rank, table[from].fallback.value, target)))
  }

  /** Every fallback a table names is itself a type of the table. */
  predicate Closed(table: ArtTable) {
    forall t :: t in table && table[t].fallback.Some? ==> table[t].fallback.value in table
  }

  /**
   * One pass of the loop: an unknown type gives nothing and probes nothing;
   * with fallback disabled, or no fallback defined, the type's own URL is
   * accepted unprobed; otherwise the URL is probed once, and accepted if
   * available or else replaced by the resolution of the fallback type.
   */
  lemma ResolveCases(table: ArtTable, rank: map<string, nat>, artType: string, appid: string, iconPath: string,
                     fallbackEnabled: bool, probe: string -> ProbeResponse)
    requires RankedBy(table, rank)
    ensures var r := Resolve(table, rank, artType, appid, iconPath, fallbackEnabled, probe);
      && (artType !in table ==> r == Resolution(None, []))
      && (artType in table ==>
            var art := table[artType];
            var url := Format(art.url, appid, iconPath);
            && (!fallbackEnabled || art.fallback.None? ==> r == Resolution(Some(url), []))
            && (fallbackEnabled && art.fallback.Some? && IsArtUrlAvailable(probe, url) ==>
                  r == Resolution(Some(url), [url]))
            && (fallbackEnabled && art.fallback.Some? && !IsArtUrlAvailable(probe, url) ==>
                  var rest := Resolve(table, rank, art.fallback.value, appid, iconPath, fallbackEnabled, probe);
                  && r == Resolution(rest.url, [url] + rest.probes)
                  && (art.fallback.value !in table ==> r == Resolution(None, [url]))))
  {
  }

  /** With fallback disabled no probe is ever issued, and a known type always gets its own URL. */
  lemma {:induction false} DisabledNeverProbes(table: ArtTable, rank: map<string, nat>, artType: string, appid: string,
                                               iconPath: string, probe: string -> ProbeResponse)
    requires RankedBy(table, rank)
    ensures Resolve(table, rank, artType, appid, iconPath, false, probe).probes == []
    ensures artType in table ==>
      Resolve(table, rank, artType, appid, iconPath, false, probe).url == Some(Format(table[artType].url, appid, iconPath))
    ensures artType !in table ==> Resolve(table, rank, artType, appid, iconPath, false, probe).url == None
  {
  }

  /**
   * Any URL returned is the formatted template of a type on the requested
   * type's fallback chain, and so is every URL probed, each of them belonging
   * to a type that has a fallback.
   */
  lemma {:induction false} ResolvedFromChain(table: ArtTable, rank: map<string, nat>, artType: string, appid: string,
                                             iconPath: string, fallbackEnabled: bool, probe: string -> ProbeResponse)
    requires RankedBy(table, rank)
    ensures var r := Resolve(table, rank, artType, appid, iconPath, fallbackEnabled, probe);
      && (r.url.Some? ==>
            exists t :: OnChain(table, rank, artType, t) && r.url.value == Format(table[t].url, appid, iconPath))
      && (forall i :: 0 <= i < |r.probes| ==>
            exists t :: && OnChain(table, rank, artType, t) && table[t].fallback.Some?
                        && r.probes[i] == Format(table[t].url, appid, iconPath))
    decreases if artType in table then rank[artType] + 1 else 0
  {
    var r := Resolve(table, rank, artType, appid, iconPath, fallbackEnabled, probe);
    if artType in table {
      var art := table[artType];
      var url := Format(art.url, appid, iconPath);
      assert OnChain(table, rank, artType, artType);
      if fallbackEnabled && art.fallback.Some? && !IsArtUrlAvailable(probe, url) {
        var next := art.fallback.value;
        var rest := Resolve(table, rank, next, appid, iconPath, fallbackEnabled, probe);
        ResolvedFromChain(table, rank, next, appid, iconPath, fallbackEnabled, probe);
        if r.url.Some? {
          var t :| OnChain(table, rank, next, t) && rest.url.value == Format(table[t].url, appid, iconPath);
          assert OnChain(table, rank, artType, t);
        }
        forall i | 0 <= i < |r.probes|
          ensures exists t :: && OnChain(table, rank, artType, t) && table[t].fallback.Some?
                              && r.probes[i] == Format(table[t].url, appid, iconPath)
        {
          if i > 0 {
            assert r.probes[i] == rest.probes[i - 1];
            var t :| && OnChain(table, rank, next, t) && table[t].fallback.Some?
                     && rest.probes[i - 1] == Format(table[t].url, appid, iconPath);
            assert OnChain(table, rank, artType, t);
          }
        }
      }
    }
  }

  /**
   * Termination bound: resolving a known type probes at most one URL per type
   * on its chain that has a fallback: at most `rank + 1` in all, and at most
   * `rank` when every fallback the table names exists.
   */
  lemma {:induction false} ProbesBoundedByRank(table: ArtTable, rank: map<string, nat>, artType: string, appid: string,
                                               iconPath: string, fallbackEnabled: bool, probe: string -> ProbeResponse)
    requires RankedBy(table, rank)
    requires artType in table
    ensures |Resolve(table, rank, artType, appid, iconPath, fallbackEnabled, probe).probes| <= rank[artType] + 1
    ensures Closed(table) ==>
      |Resolve(table, rank, artType, appid, iconPath, fallbackEnabled, probe).probes| <= rank[artType]
    decreases rank[artType]
  {
    var art := table[artType];
    var url := Format(art.url, appid, iconPath);
    if fallbackEnabled && art.fallback.Some? && !IsArtUrlAvailable(probe, url) {
      var next := art.fallback.value;
      if next in table {
        ProbesBoundedByRank(table, rank, next, appid, iconPath, fallbackEnabled, probe);
      }
    }
  }

  /**
   * The number of types on the fallback chain of `t` that the table defines:
   * `t` itself, then each fallback for as long as the table has it.
   */
  function ChainLength(table: ArtTable, rank: map<string, nat>, t: string): (n: nat)
    requires RankedBy(table, rank)
    ensures t !in table <==> n == 0
    ensures t in table ==> n <= rank[t] + 1
    decreases if t in table then rank[t] + 1 else 0
  {
    if t !in table then 0
    else if table[t].fallback.Some? && table[t].fallback.value in table then
      1 + ChainLength(table, rank, table[t].fallback.value)
    else 1
  }

  /**
   * Termination within the chain: resolving a type probes at most one URL per
   * type on its fallback chain, and one fewer when every fallback the table
   * names exists (the last type of the chain is then accepted unprobed).
   */
  lemma {:induction false} ProbesBoundedByChain(table: ArtTable, rank: map<string, nat>, artType: string, appid: string,
                                                iconPath: string, fallbackEnabled: bool, probe: string -> ProbeResponse)
    requires RankedBy(table, rank)
    ensures |Resolve(table, rank, artType, appid, iconPath, fallbackEnabled, probe).probes| <= ChainLength(table, rank, artType)
    ensures Closed(table) && artType in table ==>
      |Resolve(table, rank, artType, appid, iconPath, fallbackEnabled, probe).probes| < ChainLength(table, rank, artType)
    decreases if artType in table then rank[artType] + 1 else 0
  {
    if artType in table {
      var art := table[artType];
      var url := Format(art.url, appid, iconPath);
      if fallbackEnabled && art.fallback.Some? && !IsArtUrlAvailable(probe, url) {
        ProbesBoundedByChain(table, rank, art.fallback.value, appid, iconPath, fallbackEnabled, probe);
      }
    }
  }

  /** In a table whose every fallback exists, every known type resolves to some URL. */
  lemma {:induction false} ClosedTableResolves(table: ArtTable, rank: map<string, nat>, artType: string, appid: string,
                                               iconPath: string, fallbackEnabled: bool, probe: string -> ProbeResponse)
    requires RankedBy(table, rank) && Closed(table)
    requires artType in table
    ensures Resolve(table, rank, artType, appid, iconPath, fallbackEnabled, probe).url.Some?
    decreases rank[artType]
  {
    var art := table[artType];
    var url := Format(art.url, appid, iconPath);
    if fallbackEnabled && art.fallback.Some? && !IsArtUrlAvailable(probe, url) {
      ClosedTableResolves(table, rank, art.fallback.value, appid, iconPath, fallbackEnabled, probe);
    }
  }

  /** The rank is only a termination witness: any two witnesses give the same resolution. */
  lemma {:induction false} ResolveIndependentOfRank(table: ArtTable, rank1: map<string, nat>, rank2: map<string, nat>,
                                                    artType: string, appid: string, iconPath: string,
                                                    fallbackEnabled: bool, probe: string -> ProbeResponse)
    requires RankedBy(table, rank1) && RankedBy(table, rank2)
    ensures Resolve(table, rank1, artType, appid, iconPath, fallbackEnabled, probe)
         == Resolve(table, rank2, artType, appid, iconPath, fallbackEnabled, probe)
    decreases if artType in table then rank1[artType] + 1 else 0
  {
    if artType in table {
      var art := table[artType];
      if art.fallback.Some? {
        ResolveIndependentOfRank(table, rank1, rank2, art.fallback.value, appid, iconPath, fallbackEnabled, probe);
      }
    }
  }

  /** Fallback targets of the shipped table rank 0, the types that fall back to them rank 1. */
  const ShippedRank: map<string, nat> := map[
    "poster" := 1, "banner" := 1, "fanart" := 1,
    "fanart1" := 0, "fanart2" := 0, "landscape" := 0, "thumb" := 0, "icon" := 0, "clearlogo" := 0
  ]

  /** The shipped table is acyclic (every chain has at most one hop) and names no missing fallback. */
  lemma ShippedTableWellFormed()
    ensures RankedBy(ArtsAssignments, ShippedRank)
    ensures Closed(ArtsAssignments)
    ensures forall t :: t in ShippedRank ==> ShippedRank[t] <= 1
  {
  }

  /**
   * With the shipped table every defined art type resolves to a URL, whatever
   * the image host answers: its chain holds at most two types, so the loop
   * runs at most twice and probes at most once.
   */
  lemma ShippedTableAlwaysResolves(artType: string, appid: string, iconPath: string, fallbackEnabled: bool,
                                   probe: string -> ProbeResponse)
    requires artType in ArtsAssignments
    ensures RankedBy(ArtsAssignments, ShippedRank)
    ensures ChainLength(ArtsAssignments, ShippedRank, artType) <= 2
    ensures var r := Resolve(ArtsAssignments, ShippedRank, artType, appid, iconPath, fallbackEnabled, probe);
      r.url.Some? && |r.probes| <= 1
  {
    ShippedTableWellFormed();
    ClosedTableResolves(ArtsAssignments, ShippedRank, artType, appid, iconPath, fallbackEnabled, probe);
    ProbesBoundedByRank(ArtsAssignments, ShippedRank, artType, appid, iconPath, fallbackEnabled, probe);
  }

  /**
   * A poster that the image host answers with 404 falls back to the landscape
   * art, i.e. the header image, which is accepted without a further probe.
   */
  lemma PosterFallsBackToLandscape(appid: string, iconPath: string, probe: string -> ProbeResponse)
    requires probe(Format(PosterUrl, appid, iconPath)) == Status(404)
    ensures RankedBy(ArtsAssignments, ShippedRank)
    ensures Resolve(ArtsAssignments, ShippedRank, "poster", appid, iconPath, true, probe)
         == Resolution(Some(Format(HeaderUrl, appid, iconPath)), [Format(PosterUrl, appid, iconPath)])
  {
    ShippedTableWellFormed();
    var landscape := Resolve(ArtsAssignments, ShippedRank, "landscape", appid, iconPath, true, probe);
    assert landscape == Resolution(Some(Format(HeaderUrl, appid, iconPath)), []);
  }
}
