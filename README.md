# Steam Library for Kodi: art resolution and installed-app detection

This project models, in Dafny, the two pieces of the Kodi add-on
`plugin.program.steam.library` that make decisions of their own:

- **Art resolution** (`resources/arts.py`). Each art type Kodi asks for is
  assigned, in `ARTS_ASSIGNMENTS`, a URL template on Steam's image host and,
  optionally, a fallback art type. The URL templates come from
  `STEAM_ARTS_TYPES`. `resolve_art_url` formats the template with the app id
  and the icon path. When art fallback is enabled and the type has a fallback,
  it probes the URL with a HEAD request (`is_art_url_available`). If the image
  is not there, it moves on to the fallback type, until a URL is accepted or
  the chain names a type the table does not have.
- **Installed apps** (`resources/registry.py`). `vdf_parse` is a
  line-by-line recursive parser for Valve's KeyValues text (`registry.vdf`).
  `get_installed_steam_apps`, on a non-Windows system, parses the file,
  descends `registry/hkcu/software/valve/steam/apps`, and keeps the app ids
  whose `installed` value is `"1"`.

Modules:

- `Wrappers` is `Option`.
- `PyStr` holds Python's `str.strip()`, `str.lower()` and `str.split(sep)`, written out over ASCII.
- `Arts` holds the tables, the probe verdict, the resolution function, and the `resolve_art_url` loop as a method.
- `ArtsProperties` holds what resolution guarantees.
- `Registry` holds:
  - the file cursor as a class;
  - `vdf_parse` as a recursive method proved equal to a specification function;
  - the descent along the key path and the set of installed ids.
- `RegistryProperties` holds what the parser guarantees, including a round trip. Take a well-formed KeyValues tree: its keys and values hold no `"` and no line break, and its malformed lines are a plain text followed by one lone `"`. The lines Steam writes for such a tree parse back to exactly the map the tree stands for.
- `RegistryApps` holds what `get_installed_steam_apps` makes of a parsed file: a missing node on the key path gives no apps, and a file written from a tree yields exactly the installed ids of its apps block.
- `RegistryExamples` proves that the whole text path yields exactly `{"400"}` for the `registry.vdf` of two apps, 400 installed and 500 not, and that it still does with a stray line (a lone `"`) in front of the app blocks.

The HEAD request, with the cache in front of it, is an oracle: a function from
URL to response, either a status code or an IOError. The file is its sequence
of lines. A line whose bytes cannot be decoded is a separate kind of line.

The model follows the code as written:

- A line `"key"` splits on `"` into three pieces and opens a block.
- A line `"key" "value"` splits into five pieces and is a leaf: four pieces or more make a leaf.
- A decode error is caught only at the first `readline` of each line (registry.py:20-24). That level then returns what it has.
  - A decode error while joining a line (registry.py:28) propagates out of `get_installed_steam_apps`.
  - So does one while skipping the `{` line (registry.py:36).
- Only `KeyError` is caught (registry.py:95-97), and it gives no installed apps.
  - Indexing a string on the key path raises `TypeError`, which propagates.
  - Calling `.items()` or `.get` on a string raises `AttributeError`, which propagates.
- A malformed line that does not end in `"` is not skipped: the loop at registry.py:27-31 joins it with the next line.
  - For example, a line `"abc` in front of the key line `"400"` becomes `"abc"400"`, which stores `abc` as an empty string.
  - The `{` line that follows is then read as an ordinary line, so the app's entries land one level up.
  - The `.get` at registry.py:94 then meets a string and raises `AttributeError`.
  - The tolerance of malformed lines proved here covers only stray lines that end in a lone `"`.
- `is_art_url_available` treats any status outside 400-599 as available, including statuses of 600 and above.

## Model

| member | source | states |
|---|---|---|
| PyStr.Strip | resources/registry.py:25 | `strip()`: the result is empty exactly when the line is all whitespace, otherwise it starts and ends with non-whitespace; it is never longer than the line |
| PyStr.StripPadded | resources/registry.py:25 | `strip()` removes exactly the whitespace padding around a text that starts and ends with non-whitespace |
| PyStr.StripIdempotent | resources/registry.py:27 | stripping twice is stripping once |
| PyStr.LowerChar | resources/registry.py:35 | an upper-case ASCII letter moves to its lower-case letter, every other character is kept, and the result is never upper case |
| PyStr.Lower | resources/registry.py:35 | `lower()` keeps the length and lowers each character in place |
| PyStr.LowerIsLowerCase | resources/registry.py:15-16 | every key `lower()` produces is lower case, and lowering it again changes nothing |
| PyStr.Split | resources/registry.py:33 | `split('"')` gives at least one piece and no piece contains the separator |
| PyStr.JoinSplit | resources/registry.py:33 | joining the pieces of a split with the separator gives back the text |
| PyStr.SplitJoin | resources/registry.py:33 | splitting a join of separator-free pieces gives back exactly those pieces |
| PyStr.SplitCount | resources/registry.py:33 | a split has one piece more than the text has separators |
| PyStr.SplitFree | resources/registry.py:33 | a text without the separator is a single piece |
| PyStr.SplitAround | resources/registry.py:33 | a separator-free prefix followed by the separator becomes the first piece |
| Arts.Format | resources/arts.py:82 | `format(appid=..., img_icon_path=...)` on the two fields the templates use; its contracts are `FormatConcat`, `FormatCdnTemplate`, `SteamArtsTypesUrls` and `FormatWithFieldNames` |
| Arts.FormatConcat | resources/arts.py:82 | formatting a concatenation of templates is the concatenation of their formatted parts, for every app id and icon path |
| Arts.FormatCdnTemplate | resources/arts.py:82 | a `<prefix>{appid}<suffix>` template formats, for every app id, to the prefix, the app id and the suffix |
| Arts.SteamArtsTypesUrls | resources/arts.py:25-32 | for every app id and icon path, each STEAM_ARTS_TYPES entry formats to its CDN URL with the app id inserted, and the icon to the community-images URL with both the app id and the icon path inserted |
| Arts.FormatWithFieldNames | resources/arts.py:82 | formatting a template with the field names themselves as values gives back its format-string text: the literal text of a template is kept as it is |
| Arts.RenderCdnTemplate | resources/arts.py:26 | a `<prefix>{appid}<suffix>` template has that format-string text |
| Arts.SteamArtsTypesText | resources/arts.py:25-32 | the poster, hero, header, generated-background and clear-logo templates are the CDN URLs of STEAM_ARTS_TYPES |
| Arts.IconUrlText | resources/arts.py:30 | the icon template is the community-images URL with both fields |
| Arts.IsArtUrlAvailable | resources/arts.py:49-64 | an art is unavailable exactly when the HEAD request raises an IOError or answers with a status in [400, 600) |
| Arts.ResolveArtUrl | resources/arts.py:67-94 | the loop terminates for every table whose fallback graph is acyclic, and returns the URL and the probes of `Resolve`, one art type per iteration |
| Arts.Resolve | resources/arts.py:67-94 | the recursion the loop follows, one art type per step, terminating by the rank of an acyclicity witness; its contract is `ResolveCases` |
| ArtsProperties.ResolveCases | resources/arts.py:79-89 | an unknown type gives None without probing; a type is accepted unprobed when fallback is disabled or it has no fallback; otherwise its URL is probed once and accepted if available, or else the fallback type is resolved in its place (None when that type is unknown) |
| ArtsProperties.DisabledNeverProbes | resources/arts.py:84-87 | with fallback disabled no URL is ever probed, and a known type always gets its own formatted URL |
| ArtsProperties.ResolvedFromChain | resources/arts.py:81-89 | every URL returned or probed is the formatted template of a type on the requested type's fallback chain, and every probed one belongs to a type that has a fallback |
| ArtsProperties.ProbesBoundedByRank | resources/arts.py:81-89 | resolving a known type issues at most rank+1 probes, and at most rank when every named fallback exists |
| ArtsProperties.ChainLength | resources/arts.py:81-89 | the number of types on a type's fallback chain that the table defines is 0 exactly for an unknown type, and at most rank+1 |
| ArtsProperties.ProbesBoundedByChain | resources/arts.py:81-89 | the loop probes at most one URL per type on the fallback chain, and one fewer when every named fallback exists |
| ArtsProperties.ClosedTableResolves | resources/arts.py:81-94 | in a table whose every fallback exists, every known type resolves to a URL whatever the image host answers |
| ArtsProperties.ResolveIndependentOfRank | resources/arts.py:81-89 | the result does not depend on which acyclicity witness is chosen |
| ArtsProperties.ShippedTableWellFormed | resources/arts.py:36-46 | ARTS_ASSIGNMENTS has no fallback cycle (every chain is at most one hop) and names no missing fallback |
| ArtsProperties.ShippedTableAlwaysResolves | resources/arts.py:36-46 | with the shipped table every defined art type has a fallback chain of at most two types, so the loop runs at most twice, and it resolves to a URL after at most one probe |
| ArtsProperties.PosterFallsBackToLandscape | resources/arts.py:37 | a poster answered with 404 resolves to the header image of the landscape type, after exactly that one probe |
| Registry.ReadAt | resources/registry.py:21 | `readline`: a non-empty read advances the cursor past the line it returns; "" at the end of the file; an undecodable line raises a decode error and leaves the cursor where it is |
| Registry.VdfFile.constructor | resources/registry.py:87 | an opened file has its cursor at the first line |
| Registry.VdfFile.ReadLine | resources/registry.py:21 | a read returns what `ReadAt` gives and moves the cursor to where `ReadAt` leaves it |
| Registry.JoinLines | resources/registry.py:27-31 | the line-joining loop stays within the file and never yields an empty line; a line it gives back without a closing `"` was stopped by the end of the file or an empty read; its only exception is the decode error of an undecodable line |
| Registry.Complete | resources/registry.py:27 | the loop's exit test: the stripped line ends in `"` |
| Registry.ParseLevel | resources/registry.py:14-43 | one level of parsing never moves the cursor back or past the end of the file, and its only exception is a decode error at an undecodable line |
| Registry.VdfParse | resources/registry.py:14-43 | the map returned, or the exception raised, and the cursor left behind are exactly those of `ParseLevel` |
| Registry.Descend | resources/registry.py:90 | descending a key path raises only KeyError or TypeError: KeyError when a block lacks the next key, TypeError when the next key meets a string; the empty path gives the node itself |
| Registry.IsInstalled | resources/registry.py:94 | an app is installed when its block has `installed` equal to "1"; a missing `installed` counts as "0" |
| Registry.InstalledIds | resources/registry.py:94 | the comprehension raises AttributeError exactly when the apps node, or one app's entry, is a string; otherwise it yields exactly the app ids whose block has `installed` equal to "1" |
| Registry.AppsIn | resources/registry.py:89-97 | descending to the apps block and collecting the installed ids never lets a KeyError out: a missing node gives no apps |
| Registry.InstalledApps | resources/registry.py:86-99 | parse the file, then `AppsIn`; no KeyError escapes |
| Registry.GetInstalledSteamApps | resources/registry.py:86-99 | the text path returns `InstalledApps`: parse, descend, KeyError gives no apps, other exceptions propagate |
| RegistryProperties.ParseLowerCasesKeys | resources/registry.py:14-17 | keys are lower case at every depth of the returned map |
| RegistryProperties.ParseKeepsEntries | resources/registry.py:14-43 | a level only adds or overwrites entries: every key of the map it starts with is in the map it returns |
| RegistryProperties.ParseStops | resources/registry.py:19-26 | a level returns its map unchanged at the end of the file, at a `}` line (consuming it) and at an undecodable line |
| RegistryProperties.LeafLineStored | resources/registry.py:38-40 | a complete line with at least four pieces stores piece 3, case kept, under the lower-cased piece 1, and parsing goes on at the next line |
| RegistryProperties.LeafLinesOverwrite | resources/registry.py:38-40 | a `"key" "value"` line stores the value under the lower-cased key, and a line with the same lower-cased key directly after it overwrites it |
| RegistryProperties.ShortLineSkipped | resources/registry.py:38-42 | a complete line with fewer than three pieces (IndexError) is skipped and leaves the map unchanged |
| RegistryProperties.IncompleteLineJoined | resources/registry.py:27-31 | a line not ending in `"` loses its last character and is joined with the next line |
| RegistryProperties.Indent | resources/registry.py:25 | the indentation Steam writes is whitespace, one character per depth |
| RegistryProperties.SplitQuoted | resources/registry.py:33-34 | a `"key"` line of a quote-free key splits into exactly three pieces: empty, the key, empty |
| RegistryProperties.SplitLeaf | resources/registry.py:38-40 | a `"key"<TAB><TAB>"value"` line of quote-free key and value splits into exactly five pieces, the key at 1 and the value at 3 |
| RegistryProperties.SplitStray | resources/registry.py:38-42 | a quote-free text followed by one lone `"` splits into two pieces, the text and an empty piece, which is too few for a block or a leaf |
| RegistryProperties.LineStep | resources/registry.py:25-42 | a complete line that is not `}` is split once, then opens a block, stores a leaf or is skipped according to its number of pieces |
| RegistryProperties.LeafStep | resources/registry.py:38-40 | for every map, a written leaf line stores its value under its lower-cased key and parsing goes on at the next line |
| RegistryProperties.StrayStep | resources/registry.py:39-42 | for every map, a written malformed line is skipped |
| RegistryProperties.BlockStep | resources/registry.py:34-37 | for every map, a written `"key"` line skips the `{` line, parses the nested block from an empty map and stores it under the lower-cased key |
| RegistryProperties.CloseStep | resources/registry.py:25-26 | for every map, a written `}` line ends the level and is consumed |
| RegistryProperties.EmitLength | resources/registry.py:14-43 | the number of lines written for a tree is its line count |
| RegistryProperties.WrittenOfEmit | resources/registry.py:14-43 | the lines written for a tree hold, at their positions, the leaf, block, brace and malformed lines of the tree |
| RegistryProperties.StepsOfWritten | resources/registry.py:14-43 | the parser takes, at each written line, the step that line calls for |
| RegistryProperties.ParseEmitted | resources/registry.py:14-43 | a level parsing the lines of a tree, up to a line that ends the level, returns the map the tree stands for |
| RegistryProperties.StrayLinesIgnored | resources/registry.py:39-42 | malformed lines of one shape, a plain text followed by one lone `"`, leave the parsed map exactly as it would be without them, at any depth |
| RegistryProperties.ApplyKeeps | resources/registry.py:34-40 | entries that store under other keys keep the value a key already has |
| RegistryProperties.LastLeafWins | resources/registry.py:38-40 | the last top-level leaf of a key decides its value, whatever the entries before it stored under that key |
| RegistryProperties.CleanWellFormed | resources/registry.py:39-42 | dropping the malformed lines of a well-formed tree leaves it well formed |
| RegistryProperties.ParseWholeFile | resources/registry.py:14-43 | a whole file written from a tree parses, without error and to its last line, to exactly the map the tree stands for |
| RegistryProperties.LaterLeafOverwrites | resources/registry.py:38-40 | in a file written from a well-formed tree, a later leaf line overwrites an earlier one with the same lower-cased key, whatever lines lie between them, when no later top-level line stores under that key |
| RegistryProperties.StrayLinesIgnoredInFile | resources/registry.py:39-42 | a file written from a well-formed tree parses to the same map as the file written without its malformed lines |
| RegistryApps.DescendConcat | resources/registry.py:90 | following `p + q` is following `p`, then `q` from the node `p` reaches; an exception along `p` is the result |
| RegistryApps.MissingNodeGivesNoApps | resources/registry.py:89-97 | when a block on the way to the apps lacks the next key of the path, the parsed file yields no installed apps |
| RegistryApps.MissingNodeInFile | resources/registry.py:86-99 | a file that parses and lacks a node on the key path yields no installed apps |
| RegistryApps.WrittenFileApps | resources/registry.py:86-99 | the lines Steam writes for a well-formed tree yield what the tree itself yields |
| RegistryApps.WrittenFileInstalled | resources/registry.py:86-99 | a file written from a well-formed tree whose apps node holds app blocks yields exactly the ids whose block says installed "1" |
| RegistryApps.WrittenFileWithoutApps | resources/registry.py:86-99 | a file written from a well-formed tree with no apps node on the path yields no apps |
| RegistryApps.JoinStopsAtEndOfFile | resources/registry.py:27-31 | in a file without empty reads, a line the loop gives back without a closing `"` ends at the end of the file |
| RegistryExamples.LowerAll | resources/registry.py:90 | lower-casing a key path lowers each key in place |
| RegistryExamples.NestWellFormed | resources/registry.py:34-37 | blocks nested along a path of quote-free keys are well formed |
| RegistryExamples.NestApply | resources/registry.py:34-37 | nested blocks stand for nested maps under the lower-cased keys |
| RegistryExamples.DescendNest | resources/registry.py:90 | following the keys of a nesting reaches the innermost map |
| RegistryExamples.StraysOnly | resources/registry.py:39-42 | malformed lines in front of the apps change nothing |
| RegistryExamples.SteamPathLowered | resources/registry.py:90 | Steam's key path `Registry/HKCU/Software/Valve/Steam/Apps`, lower-cased, is the path the function descends |
| RegistryExamples.TwoAppsApplied | resources/registry.py:34-40 | the blocks of apps 400 and 500 stand for their `installed` values under lower-cased keys |
| RegistryExamples.TwoAppsInstalled | resources/registry.py:94 | of apps 400 ("1") and 500 ("0") only 400 is installed |
| RegistryExamples.InstalledOfSample | resources/registry.py:89-97 | a file that parses to the sample's nesting yields exactly app 400 |
| RegistryExamples.SampleYields | resources/registry.py:86-99 | the sample registry.vdf, with any number of stray lines (a plain text followed by one lone `"`) in front of the app blocks, yields exactly `{"400"}` |
| RegistryExamples.SampleInstalled | resources/registry.py:86-99 | the sample registry.vdf yields exactly `{"400"}` |
| RegistryExamples.SampleWithMalformedLine | resources/registry.py:39-42 | a line holding a single `"` in front of the app blocks does not change the result `{"400"}` |

## Left out

- The HEAD request, its timeout and the `requests_cache` session in front of it (arts.py:19-23, 59) are an oracle from URL to response. Caching, expiry and offline behaviour are not modelled.
- The Kodi settings read at import time (arts.py:11-13) are not modelled. The art-fallback flag is a parameter of `ResolveArtUrl`.
- `delete_cache` (arts.py:97-101) removes a file and has no logic to model.
- The logging on an unresolved art type (arts.py:91-92) is not modelled. The logging and `show_error` in registry.py are not modelled either.
- Arts.ResolveArtUrl: the table is a parameter with a ghost rank map that witnesses an acyclic fallback graph. This rank precondition excludes every table with a fallback cycle anywhere. That includes tables on which the source returns: fallback is disabled, some URL on the cycle answers as available, or the requested type does not reach the cycle. The source loops forever only when fallback is enabled and every URL on a cycle it reaches probes unavailable. The model describes none of the cyclic cases, and the shipped table is proved acyclic.
- Arts.Format: only the two named fields the templates use are modelled, not the rest of Python's format mini-language. Templates are sequences of pieces.
- The Windows branch of `get_installed_steam_apps` and `is_installed_win` (registry.py:46-85) read the native registry through `winreg` and are not modelled.
- Opening the file (registry.py:87) is not modelled: the file is given as its sequence of lines.
- Registry.VdfFile.ReadLine: undecodable bytes are a whole line that raises on every read and never moves the cursor. The cursor position CPython leaves after a decode error is not modelled.
- PyStr.Strip: only ASCII whitespace (TAB, LF, VT, FF, CR, 0x1C-0x1F and SPACE) is stripped. Python also strips the non-ASCII whitespace characters.
- PyStr.Lower: only ASCII letters are lowered. Python also lowers non-ASCII letters.
- Python's dictionaries are modelled as values. `vdf_parse` updates the dictionary it was given in place and returns that same object; the model returns a new map, which is the same as long as no caller keeps the argument.
- Registry.GetInstalledSteamApps: the result is a set. The list order of the source, which follows the dictionary's insertion order, is not modelled.
- steam.py, main.py, addon.py, util.py, config.py and service.py are not part of this model. They fetch owned games, build menus, launch games and store settings.
