/**
 * Installed Steam apps from Steam's registry.vdf (resources/registry.py).
 *
 * `vdf_parse` is a line-oriented recursive-descent parser for Valve's
 * KeyValues text format: it reads the file through a cursor (`readline`),
 * lower-cases keys, turns a lone `"key"` line into a nested block (skipping the
 * `{` line after it), stores `"key" "value"` lines as leaves, joins a line that
 * does not end in `"` with the next one, returns at `}` or at the end of the
 * file, skips malformed lines and returns what it has when a line cannot be
 * decoded. `get_installed_steam_apps` (the non-Windows branch) then keeps the
 * app ids under registry/hkcu/software/valve/steam/apps whose `installed`
 * value is "1".
 */
module Registry {
  import opened PyStr

  /** A parsed KeyValues node: a string value or a block of keyed nodes. */
  datatype Vdf = Str(value: string) | Dict(entries: map<string, Vdf>)

  /**
   * One line of the file as `readline` delivers it: its text, newline kept,
   * or bytes that cannot be decoded (reading them raises UnicodeDecodeError).
   */
  datatype Line = Text(text: string) | Undecodable

  /** What one `readline` call gives: the text read ("" at end of file), or the decode error it raises. */
  datatype ReadResult = Read(text: string) | DecodeFailure

  /** The Python exceptions the text path can end in. */
  datatype PyError = UnicodeDecodeError | KeyError | TypeError | AttributeError

  datatype Outcome<+T> = Ok(value: T) | Raised(error: PyError)

  /**
   * `readline` at cursor `pos`: the next line, advancing the cursor; "" at the
   * end of the file, leaving it where it is. An undecodable line raises and
   * leaves the cursor in front of it, so every later read fails the same way.
   */
  function ReadAt(lines: seq<Line>, pos: nat): (r: (ReadResult, nat))
    requires pos <= |lines|
    ensures pos <= r.1 <= |lines|
    ensures r.0.Read? && r.0.text != "" ==> r.1 == pos + 1 && lines[pos] == Text(r.0.text)
    ensures pos == |lines| ==> r == (Read(""), pos)
    ensures pos < |lines| && lines[pos] == Undecodable ==> r == (DecodeFailure, pos)
  {
    if pos == |lines| then (Read(""), pos)
    else match lines[pos]
      case Text(t) => (Read(t), pos + 1)
      case Undecodable => (DecodeFailure, pos)
  }

  /** The trimmed line ends in a double quote: the test of the line-joining loop. */
  predicate Complete(line: string) {
    EndsWith(Strip(line), '"')
  }

  /**
   * The line-joining loop (registry.py:27-31): while the trimmed line does not
   * end in `"`, drop its last character and append the next line, stopping at
   * the end of the file. Gives the joined line and the cursor after it. The
   * loop stops with a line that is not complete only where `readline` gave
   * "": at the end of the file, or after an empty line (which no file yields).
   * The only exception it raises is the decode error of `readline`.
   */
  function JoinLines(lines: seq<Line>, pos: nat, line: string): (r: (Outcome<string>, nat))
    requires pos <= |lines|
    requires line != ""
    ensures pos <= r.1 <= |lines|
    ensures r.0.Ok? ==> r.0.value != ""
    ensures r.0.Ok? && !Complete(r.0.value) ==> r.1 == |lines| || (pos < r.1 && lines[r.1 - 1] == Text(""))
    ensures r.0.Raised? ==> r.0.error == UnicodeDecodeError && r.1 < |lines| && lines[r.1] == Undecodable
    decreases |lines| - pos
  {
    if Complete(line) then (Ok(line), pos)
    else
      var (next, p) := ReadAt(lines, pos);
      if next.DecodeFailure? then (Raised(UnicodeDecodeError), p)
      else if next.text == "" then (Ok(line), p)
      else JoinLines(lines, p, line[..|line| - 1] + next.text)
  }

  /**
   * What `vdf_parse(file, config)` computes when the cursor is at `pos`: the
   * map it returns (or the exception it raises) and where it leaves the cursor.
   * Each clause follows one branch of the source's loop.
   */
  function ParseLevel(lines: seq<Line>, pos: nat, config: map<string, Vdf>): (r: (Outcome<map<string, Vdf>>, nat))
    requires pos <= |lines|
    ensures pos <= r.1 <= |lines|
    ensures r.0.Raised? ==> r.0.error == UnicodeDecodeError && r.1 < |lines| && lines[r.1] == Undecodable
    decreases |lines| - pos
  {
    var (read, p) := ReadAt(lines, pos);
    if read.DecodeFailure? then (Ok(config), p)
    else if read.text == "" || Strip(read.text) == "}" then (Ok(config), p)
    else
      var (joined, q) := JoinLines(lines, p, read.text);
      if joined.Raised? then (Raised(joined.error), q)
      else
        var elements := Split(Strip(joined.value), '"');
        if |elements| == 3 then
          var key := Lower(elements[1]);
          var (skipped, q') := ReadAt(lines, q);
          if skipped.DecodeFailure? then (Raised(UnicodeDecodeError), q')
          else
            var (nested, n) := ParseLevel(lines, q', map[]);
            if nested.Raised? then (Raised(nested.error), n)
            else ParseLevel(lines, n, config[key := Dict(nested.value)])
        else if |elements| >= 4 then
          ParseLevel(lines, q, config[Lower(elements[1]) := Str(elements[3])])
        else
          ParseLevel(lines, q, config)
  }

  /** An open registry.vdf: its lines and the read cursor. */
  class VdfFile {
    const lines: seq<Line>
    var pos: nat

    ghost predicate Valid()
      reads this
    {
      pos <= |lines|
    }

    constructor (lines: seq<Line>)
      ensures Valid()
      ensures this.lines == lines && pos == 0
    {
      this.lines := lines;
      pos := 0;
    }

    /** `file.readline()`. */
    method ReadLine() returns (r: ReadResult)
      requires Valid()
      modifies this
      ensures Valid()
      ensures (r, pos) == ReadAt(lines, old(pos))
    {
      if pos == |lines| {
        r := Read("");
      } else if lines[pos].Undecodable? {
        r := DecodeFailure;
      } else {
        r := Read(lines[pos].text);
        pos := pos + 1;
      }
    }
  }

  /**
   * vdf_parse: read entries into `config` until a `}` line or the end of the
   * file, recursing into nested blocks. The map returned, or the exception
   * raised, and the cursor left behind are those of ParseLevel.
   */
  method VdfParse(file: VdfFile, config: map<string, Vdf>) returns (result: Outcome<map<string, Vdf>>)
    requires file.Valid()
    modifies file
    ensures file.Valid()
    ensures (result, file.pos) == ParseLevel(file.lines, old(file.pos), config)
    decreases |file.lines| - file.pos
  {
    ghost var goal := ParseLevel(file.lines, file.pos, config);
    var entries := config;
    // Python's `while line:` guard: the line is never empty at the head of the
    // loop, since every empty read returns first.
    while true
      invariant file.Valid()
      invariant ParseLevel(file.lines, file.pos, entries) == goal
      decreases |file.lines| - file.pos
    {
      ghost var start := file.pos;
      var read := file.ReadLine();
      if read.DecodeFailure? {
        return Ok(entries);
      }
      var line := read.text;
      if line == "" || Strip(line) == "}" {
        return Ok(entries);
      }
      ghost var afterFirst := file.pos;
      while !Complete(line)
        invariant file.Valid() && afterFirst <= file.pos
        invariant line != ""
        invariant JoinLines(file.lines, file.pos, line) == JoinLines(file.lines, afterFirst, read.text)
        decreases |file.lines| - file.pos
      {
        var next := file.ReadLine();
        if next.DecodeFailure? {
          return Raised(UnicodeDecodeError);
        }
        if next.text == "" {
          break;
        }
        line := line[..|line| - 1] + next.text;
      }
      var elements := Split(Strip(line), '"');
      if |elements| == 3 {
        var key := Lower(elements[1]);
        var skipped := file.ReadLine();  // the `{` line
        if skipped.DecodeFailure? {
          return Raised(UnicodeDecodeError);
        }
        var nested := VdfParse(file, map[]);
        if nested.Raised? {
          return Raised(nested.error);
        }
        entries := entries[key := Dict(nested.value)];
      } else if |elements| >= 4 {
        entries := entries[Lower(elements[1]) := Str(elements[3])];
      } else {
        // Fewer than three pieces: elements[3] raises IndexError, which is
        // logged; the line is skipped.
      }
    }
  }

  /** The fixed path from the top of registry.vdf to the block of installed apps. */
  const AppsPath: seq<string> := ["registry", "hkcu", "software", "valve", "steam", "apps"]

  /**
   * `node[k1][k2]...`: the node the keys lead to; KeyError when a block lacks
   * the next key, TypeError when the next key is applied to a string.
   */
  function Descend(node: Vdf, path: seq<string>): (r: Outcome<Vdf>)
    ensures r.Raised? ==> r.error == KeyError || r.error == TypeError
    ensures path == [] ==> r == Ok(node)
    ensures node.Dict? && path != [] && path[0] !in node.entries ==> r == Raised(KeyError)
    ensures node.Str? && path != [] ==> r == Raised(TypeError)
  {
    if path == [] then Ok(node)
    else match node
      case Str(_) => Raised(TypeError)
      case Dict(entries) =>
        if path[0] !in entries then Raised(KeyError) else Descend(entries[path[0]], path[1..])
  }

  /** `information.get('installed', '0') == '1'` for one app's block. */
  predicate IsInstalled(information: map<string, Vdf>) {
    "installed" in information && information["installed"] == Str("1")
  }

  /**
   * The comprehension of registry.py:94 over the apps node: the ids whose
   * block says installed "1". `.items()` on a string, or `.get` on an app
   * whose entry is a string, raises AttributeError.
   */
  function InstalledIds(apps: Vdf): (r: Outcome<set<string>>)
    ensures r.Raised? <==> apps.Str? || exists id :: id in apps.entries && apps.entries[id].Str?
    ensures r.Raised? ==> r.error == AttributeError
    ensures r.Ok? ==> forall id :: id in r.value <==> id in apps.entries && IsInstalled(apps.entries[id].entries)
  {
    if apps.Str? then Raised(AttributeError)
    else if exists id :: id in apps.entries && apps.entries[id].Str? then Raised(AttributeError)
    else Ok(set id | id in apps.entries && IsInstalled(apps.entries[id].entries))
  }

  /**
   * What get_installed_steam_apps makes of the parsed file: descend to the
   * apps block and keep the installed ids. The KeyError of a missing node is
   * caught and gives no apps; no KeyError escapes.
   */
  function AppsIn(config: map<string, Vdf>): (r: Outcome<set<string>>)
    ensures r.Raised? ==> r.error == TypeError || r.error == AttributeError
  {
    match Descend(Dict(config), AppsPath)
    case Raised(KeyError) => Ok({})
    case Raised(e) => Raised(e)
    case Ok(apps) => InstalledIds(apps)
  }

  /**
   * The text path of get_installed_steam_apps: parse the whole file, then
   * AppsIn. A decode error that escapes the parser propagates, and so do the
   * TypeError and AttributeError of AppsIn; a KeyError never does.
   */
  function InstalledApps(lines: seq<Line>): (r: Outcome<set<string>>)
    ensures r.Raised? ==> r.error != KeyError
  {
    var (parsed, _) := ParseLevel(lines, 0, map[]);
    if parsed.Raised? then Raised(parsed.error) else AppsIn(parsed.value)
  }

  /** get_installed_steam_apps on a non-Windows system, given the lines of registry.vdf. */
  method GetInstalledSteamApps(lines: seq<Line>) returns (installedApps: Outcome<set<string>>)
    ensures installedApps == InstalledApps(lines)
  {
    var file := new VdfFile(lines);
    var vdf := VdfParse(file, map[]);
    if vdf.Raised? {
      return Raised(vdf.error);
    }
    var apps := Descend(Dict(vdf.value), AppsPath);
    if apps.Raised? {
      if apps.error == KeyError {
        // show_error: "Error finding the values from registry.vdf"
        return Ok({});
      }
      return Raised(apps.error);
    }
    installedApps := InstalledIds(apps.value);
  }
}
