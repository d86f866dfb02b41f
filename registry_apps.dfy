/**
 * What get_installed_steam_apps makes of a registry.vdf: how a key path is
 * followed, when a missing node means "no installed apps", and which ids any
 * file written from a KeyValues tree yields.
 */
module RegistryApps {
  import opened Registry
  import opened RegistryProperties

  /**
   * Following `p + q` is following `p`, then `q` from the node `p` reaches;
   * an exception on the way along `p` is the result.
   */
  lemma {:induction false} DescendConcat(node: Vdf, p: seq<string>, q: seq<string>)
    ensures Descend(node, p + q) ==
      match Descend(node, p)
      case Ok(n) => Descend(n, q)
      case Raised(e) => Raised(e)
  {
    if p != [] {
      assert (p + q)[0] == p[0];
      assert (p + q)[1..] == p[1..] + q;
      if node.Dict? && p[0] in node.entries {
        DescendConcat(node.entries[p[0]], p[1..], q);
      }
    } else {
      assert p + q == q;
    }
  }

  /**
   * A parsed file in which some block on the way to the apps lacks the next
   * key of the path yields no installed apps: the KeyError is caught.
   */
  lemma MissingNodeGivesNoApps(config: map<string, Vdf>, i: nat, d: map<string, Vdf>)
    requires i < |AppsPath|
    requires Descend(Dict(config), AppsPath[..i]) == Ok(Dict(d))
    requires AppsPath[i] !in d
    ensures AppsIn(config) == Ok({})
  {
    assert AppsPath[..i] + AppsPath[i..] == AppsPath;
    DescendConcat(Dict(config), AppsPath[..i], AppsPath[i..]);
    assert AppsPath[i..][0] == AppsPath[i];
  }

  /** The same for a whole file: it parses, and a block on the path lacks the next key. */
  lemma MissingNodeInFile(lines: seq<Line>, i: nat, d: map<string, Vdf>)
    requires ParseLevel(lines, 0, map[]).0.Ok?
    requires i < |AppsPath|
    requires Descend(Dict(ParseLevel(lines, 0, map[]).0.value), AppsPath[..i]) == Ok(Dict(d))
    requires AppsPath[i] !in d
    ensures InstalledApps(lines) == Ok({})
  {
    MissingNodeGivesNoApps(ParseLevel(lines, 0, map[]).0.value, i, d);
  }

  /** The lines Steam writes for a tree yield what the tree itself yields. */
  lemma WrittenFileApps(es: seq<Entry>)
    requires WellFormed(es)
    ensures InstalledApps(Emit(es, 0)) == AppsIn(Apply(es, map[]))
  {
    ParseWholeFile(es);
  }

  /**
   * A file written from a tree whose apps node is a block of app blocks yields
   * exactly the ids of the apps whose block says installed "1".
   */
  lemma WrittenFileInstalled(es: seq<Entry>, apps: map<string, Vdf>)
    requires WellFormed(es)
    requires Descend(Dict(Apply(es, map[])), AppsPath) == Ok(Dict(apps))
    requires forall id :: id in apps ==> apps[id].Dict?
    ensures InstalledApps(Emit(es, 0)).Ok?
    ensures forall id :: id in InstalledApps(Emit(es, 0)).value <==> id in apps && IsInstalled(apps[id].entries)
  {
    WrittenFileApps(es);
  }

  /** A file written from a tree with no apps node on the path yields no apps. */
  lemma WrittenFileWithoutApps(es: seq<Entry>)
    requires WellFormed(es)
    requires Descend(Dict(Apply(es, map[])), AppsPath) == Raised(KeyError)
    ensures InstalledApps(Emit(es, 0)) == Ok({})
  {
    WrittenFileApps(es);
  }

  /**
   * Where the line-joining loop stops: in a file without empty reads before
   * its end, a joined line that does not end in `"` is only ever given back
   * at the end of the file.
   */
  lemma JoinStopsAtEndOfFile(lines: seq<Line>, pos: nat, line: string)
    requires pos <= |lines|
    requires line != ""
    requires forall i :: pos <= i < |lines| ==> lines[i] != Text("")
    ensures JoinLines(lines, pos, line).0.Ok? && !Complete(JoinLines(lines, pos, line).0.value) ==>
      JoinLines(lines, pos, line).1 == |lines|
  {
  }
}
