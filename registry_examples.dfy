/**
 * A registry.vdf as Steam writes it, with two apps of which one is installed,
 * and a proof of what the whole text path of get_installed_steam_apps yields
 * for it.
 */
module RegistryExamples {
  import opened PyStr
  import opened Registry
  import opened RegistryProperties

  /** `inner` nested in one block per key of `path`, outermost first. */
  function Nest(path: seq<string>, inner: seq<Entry>): seq<Entry>
    decreases |path|
  {
    if path == [] then inner else [Block(path[0], Nest(path[1..], inner))]
  }

  /** `m` nested in one single-entry map per key of `path`, outermost first. */
  function NestMap(path: seq<string>, m: map<string, Vdf>): map<string, Vdf>
    decreases |path|
  {
    if path == [] then m else map[path[0] := Dict(NestMap(path[1..], m))]
  }

  function LowerAll(path: seq<string>): (r: seq<string>)
    ensures |r| == |path|
    ensures forall i :: 0 <= i < |path| ==> r[i] == Lower(path[i])
  {
    if path == [] then [] else [Lower(path[0])] + LowerAll(path[1..])
  }

  lemma {:induction false} NestWellFormed(path: seq<string>, inner: seq<Entry>)
    requires forall i :: 0 <= i < |path| ==> Plain(path[i])
    requires WellFormed(inner)
    ensures WellFormed(Nest(path, inner))
    decreases |path|
  {
    if path != [] {
      NestWellFormed(path[1..], inner);
    }
  }

  /** Nested blocks stand for nested maps under the lower-cased keys. */
  lemma {:induction false} NestApply(path: seq<string>, inner: seq<Entry>)
    ensures Apply(Nest(path, inner), map[]) == NestMap(LowerAll(path), Apply(inner, map[]))
    decreases |path|
  {
    if path != [] {
      NestApply(path[1..], inner);
      var es := Nest(path, inner);
      assert es[1..] == [];
      assert LowerAll(path)[1..] == LowerAll(path[1..]);
    }
  }

  /** Following the keys of the nesting reaches the innermost map. */
  lemma {:induction false} DescendNest(path: seq<string>, m: map<string, Vdf>)
    ensures Descend(Dict(NestMap(path, m)), path) == Ok(Dict(m))
    decreases |path|
  {
    if path != [] {
      DescendNest(path[1..], m);
    }
  }

  /** Stray lines in front of `rest` change nothing. */
  lemma {:induction false} StraysOnly(strays: seq<Entry>, rest: seq<Entry>, config: map<string, Vdf>)
    requires forall i :: 0 <= i < |strays| ==> strays[i].Stray?
    ensures Apply(strays + rest, config) == Apply(rest, config)
  {
    if strays != [] {
      var es := strays + rest;
      assert es[0] == strays[0] && es[1..] == strays[1..] + rest;
      assert Apply(es, config) == Apply(es[1..], config);
      StraysOnly(strays[1..], rest, config);
    } else {
      assert strays + rest == rest;
    }
  }

  /** The key path of registry.vdf in Steam's casing. */
  const SteamPath: seq<string> := ["Registry", "HKCU", "Software", "Valve", "Steam", "Apps"]

  lemma LowerRegistry() ensures Lower("Registry") == "registry" {
    assert Lower("Registry")[..] == "registry";
  }
  lemma LowerHkcu() ensures Lower("HKCU") == "hkcu" {
    assert Lower("HKCU")[..] == "hkcu";
  }
  lemma LowerSoftware() ensures Lower("Software") == "software" {
    assert Lower("Software")[..] == "software";
  }
  lemma LowerValve() ensures Lower("Valve") == "valve" {
    assert Lower("Valve")[..] == "valve";
  }
  lemma LowerSteam() ensures Lower("Steam") == "steam" {
    assert Lower("Steam")[..] == "steam";
  }
  lemma LowerApps() ensures Lower("Apps") == "apps" {
    assert Lower("Apps")[..] == "apps";
  }
  lemma LowerInstalled() ensures Lower("Installed") == "installed" {
    assert Lower("Installed")[..] == "installed";
  }

  lemma LowerAllOfSix(a: string, b: string, c: string, d: string, e: string, f: string)
    ensures LowerAll([a, b, c, d, e, f]) == [Lower(a), Lower(b), Lower(c), Lower(d), Lower(e), Lower(f)]
  {
  }

  /** Lower-casing Steam's key path gives the path get_installed_steam_apps descends. */
  lemma SteamPathLowered()
    ensures LowerAll(SteamPath) == AppsPath
  {
    LowerAllOfSix("Registry", "HKCU", "Software", "Valve", "Steam", "Apps");
    LowerRegistry();
    LowerHkcu();
    LowerSoftware();
    LowerValve();
    LowerSteam();
    LowerApps();
  }

  /** The blocks of apps 400 (installed) and 500 (not installed). */
  const TwoApps: seq<Entry> := [Block("400", [Leaf("Installed", "1")]), Block("500", [Leaf("Installed", "0")])]

  const TwoAppsMap: map<string, Vdf> :=
    map["400" := Dict(map["installed" := Str("1")]), "500" := Dict(map["installed" := Str("0")])]

  lemma LowerDigits()
    ensures Lower("400") == "400" && Lower("500") == "500"
  {
    assert Lower("400")[..] == "400";
    assert Lower("500")[..] == "500";
  }

  /** The block of one app holding its single `Installed` leaf. */
  lemma AppApplied(value: string)
    ensures Apply([Leaf("Installed", value)], map[]) == map["installed" := Str(value)]
  {
    LowerInstalled();
    assert [Leaf("Installed", value)][1..] == [];
  }

  lemma TwoAppsApplied()
    ensures Apply(TwoApps, map[]) == TwoAppsMap
  {
    LowerDigits();
    AppApplied("1");
    AppApplied("0");
    var second := [Block("500", [Leaf("Installed", "0")])];
    assert TwoApps[1..] == second && second[1..] == [];
    var after400 := map["400" := Dict(map["installed" := Str("1")])];
    assert Apply(TwoApps, map[]) == Apply(second, after400);
    assert Apply(second, after400) == after400["500" := Dict(map["installed" := Str("0")])];
  }

  lemma TwoAppsInstalled()
    ensures InstalledIds(Dict(TwoAppsMap)) == Ok({"400"})
  {
    var apps := TwoAppsMap;
    assert apps.Keys == {"400", "500"};
    assert IsInstalled(apps["400"].entries);
    assert !IsInstalled(apps["500"].entries);
    assert forall id :: id in apps ==> apps[id].Dict?;
    var r := InstalledIds(Dict(apps));
    assert r.Ok?;
    assert r.value == {"400"};
  }

  /** A file that parses to the sample's nesting yields exactly app 400. */
  lemma InstalledOfSample(lines: seq<Line>)
    requires ParseLevel(lines, 0, map[]).0 == Ok(NestMap(AppsPath, TwoAppsMap))
    ensures InstalledApps(lines) == Ok({"400"})
  {
    DescendNest(AppsPath, TwoAppsMap);
    TwoAppsInstalled();
  }

  /**
   * The registry.vdf Steam writes for apps 400 (installed) and 500 (not
   * installed), with any number of stray lines `extra` (a plain text and one
   * lone `"`) in front of the app blocks, yields exactly app 400.
   */
  lemma {:induction false} SampleYields(extra: seq<Entry>)
    requires forall i :: 0 <= i < |extra| ==> extra[i].Stray? && WellFormed([extra[i]])
    ensures InstalledApps(Emit(Nest(SteamPath, extra + TwoApps), 0)) == Ok({"400"})
  {
    var es := Nest(SteamPath, extra + TwoApps);
    SampleParsed(extra);
    InstalledOfSample(Emit(es, 0));
  }

  /** The sample parses to the nested maps it stands for. */
  lemma SampleParsed(extra: seq<Entry>)
    requires forall i :: 0 <= i < |extra| ==> extra[i].Stray? && WellFormed([extra[i]])
    ensures ParseLevel(Emit(Nest(SteamPath, extra + TwoApps), 0), 0, map[]).0 == Ok(NestMap(AppsPath, TwoAppsMap))
  {
    SteamPathPlain();
    SampleWellFormed(SteamPath, extra);
    SampleApplied(extra);
    ParsedAs(Nest(SteamPath, extra + TwoApps), NestMap(AppsPath, TwoAppsMap));
  }

  lemma ParsedAs(es: seq<Entry>, m: map<string, Vdf>)
    requires WellFormed(es) && Apply(es, map[]) == m
    ensures ParseLevel(Emit(es, 0), 0, map[]).0 == Ok(m)
  {
    ParseWholeFile(es);
  }

  lemma SampleWellFormed(path: seq<string>, extra: seq<Entry>)
    requires forall i :: 0 <= i < |path| ==> Plain(path[i])
    requires forall i :: 0 <= i < |extra| ==> extra[i].Stray? && WellFormed([extra[i]])
    ensures WellFormed(Nest(path, extra + TwoApps))
  {
    AppsWellFormed(extra);
    NestWellFormed(path, extra + TwoApps);
  }

  lemma AppsWellFormed(extra: seq<Entry>)
    requires forall i :: 0 <= i < |extra| ==> extra[i].Stray? && WellFormed([extra[i]])
    ensures WellFormed(extra + TwoApps)
  {
    TwoAppsWellFormed();
    StrayEntriesWellFormed(extra, TwoApps);
  }

  lemma TwoAppsWellFormed()
    ensures WellFormed(TwoApps)
  {
    var leaf1, leaf0 := [Leaf("Installed", "1")], [Leaf("Installed", "0")];
    assert WellFormed(leaf1) && WellFormed(leaf0) by {
      assert leaf1[1..] == [] && leaf0[1..] == [];
    }
    var second := [Block("500", leaf0)];
    assert second[1..] == [];
    assert WellFormed(second);
    assert TwoApps[1..] == second;
  }

  lemma SteamPathPlain()
    ensures forall i :: 0 <= i < |SteamPath| ==> Plain(SteamPath[i])
  {
  }

  /** The map the sample stands for. */
  lemma SampleApplied(extra: seq<Entry>)
    requires forall i :: 0 <= i < |extra| ==> extra[i].Stray?
    ensures Apply(Nest(SteamPath, extra + TwoApps), map[]) == NestMap(AppsPath, TwoAppsMap)
  {
    NestApply(SteamPath, extra + TwoApps);
    StraysOnly(extra, TwoApps, map[]);
    TwoAppsApplied();
    SteamPathLowered();
  }

  lemma {:induction false} StrayEntriesWellFormed(strays: seq<Entry>, rest: seq<Entry>)
    requires forall i :: 0 <= i < |strays| ==> strays[i].Stray? && WellFormed([strays[i]])
    requires WellFormed(rest)
    ensures WellFormed(strays + rest)
  {
    if strays != [] {
      var es := strays + rest;
      assert es[0] == strays[0] && es[1..] == strays[1..] + rest;
      assert WellFormed([strays[0]]);
      StrayEntriesWellFormed(strays[1..], rest);
      assert WellFormed(es[1..]);
    } else {
      assert strays + rest == rest;
    }
  }

  /** The sample file gives exactly the installed app 400. */
  lemma SampleInstalled()
    ensures InstalledApps(Emit(Nest(SteamPath, TwoApps), 0)) == Ok({"400"})
  {
    SampleYields([]);
    assert [] + TwoApps == TwoApps;
  }

  /**
   * A line holding a lone `"` in front of the app blocks is skipped, and the
   * apps after it and the blocks above it are read as before.
   */
  lemma SampleWithMalformedLine()
    ensures InstalledApps(Emit(Nest(SteamPath, [Stray("")] + TwoApps), 0)) == Ok({"400"})
  {
    SampleYields([Stray("")]);
  }
}
