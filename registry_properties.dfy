/**
 * What vdf_parse and get_installed_steam_apps guarantee: lower-cased keys,
 * entries that are kept or overwritten, tolerance of malformed lines, and a
 * round trip through a KeyValues writer that shows the parser reads back
 * exactly the blocks and values that Steam writes.
 */
module RegistryProperties {
  import opened PyStr
  import opened Registry

  /** Every key at every depth is in lower case. */
  predicate LowerKeyed(v: Vdf) {
    v.Dict? ==> forall k :: k in v.entries ==> IsLowerCase(k) && LowerKeyed(v.entries[k])
  }

  /**
   * vdf_parse returns keys in lower case at every depth: starting from a map
   * whose keys are lower case, the map it returns has only lower-case keys.
   */
  lemma {:induction false} ParseLowerCasesKeys(lines: seq<Line>, pos: nat, config: map<string, Vdf>)
    requires pos <= |lines|
    requires LowerKeyed(Dict(config))
    ensures var r := ParseLevel(lines, pos, config).0; r.Ok? ==> LowerKeyed(Dict(r.value))
    decreases |lines| - pos
  {
    var (read, p) := ReadAt(lines, pos);
    if read.Read? && read.text != "" && Strip(read.text) != "}" {
      var (joined, q) := JoinLines(lines, p, read.text);
      if joined.Ok? {
        var elements := Split(Strip(joined.value), '"');
        if |elements| == 3 {
          LowerIsLowerCase(elements[1]);
          var (skipped, q') := ReadAt(lines, q);
          if skipped.Read? {
            ParseLowerCasesKeys(lines, q', map[]);
            var (nested, n) := ParseLevel(lines, q', map[]);
            if nested.Ok? {
              ParseLowerCasesKeys(lines, n, config[Lower(elements[1]) := Dict(nested.value)]);
            }
          }
        } else if |elements| >= 4 {
          LowerIsLowerCase(elements[1]);
          ParseLowerCasesKeys(lines, q, config[Lower(elements[1]) := Str(elements[3])]);
        } else {
          ParseLowerCasesKeys(lines, q, config);
        }
      }
    }
  }

  /**
   * Entries are only added or overwritten, never removed: every key of the map
   * a level starts with is still in the map it returns, whether parsing ends
   * at a `}`, at the end of the file or at a decode error.
   */
  lemma {:induction false} ParseKeepsEntries(lines: seq<Line>, pos: nat, config: map<string, Vdf>)
    requires pos <= |lines|
    ensures var r := ParseLevel(lines, pos, config).0; r.Ok? ==> config.Keys <= r.value.Keys
    decreases |lines| - pos
  {
    var (read, p) := ReadAt(lines, pos);
    if read.Read? && read.text != "" && Strip(read.text) != "}" {
      var (joined, q) := JoinLines(lines, p, read.text);
      if joined.Ok? {
        var elements := Split(Strip(joined.value), '"');
        if |elements| == 3 {
          var (skipped, q') := ReadAt(lines, q);
          if skipped.Read? {
            var (nested, n) := ParseLevel(lines, q', map[]);
            if nested.Ok? {
              ParseKeepsEntries(lines, n, config[Lower(elements[1]) := Dict(nested.value)]);
            }
          }
        } else if |elements| >= 4 {
          ParseKeepsEntries(lines, q, config[Lower(elements[1]) := Str(elements[3])]);
        } else {
          ParseKeepsEntries(lines, q, config);
        }
      }
    }
  }

  /**
   * A level returns the map it has built, unchanged, at the end of the file, at
   * a line whose trimmed text is `}` (consuming it), and at a line that cannot
   * be decoded (leaving the cursor in front of it).
   */
  lemma ParseStops(lines: seq<Line>, pos: nat, config: map<string, Vdf>)
    requires pos <= |lines|
    ensures pos == |lines| ==> ParseLevel(lines, pos, config) == (Ok(config), pos)
    ensures pos < |lines| && lines[pos].Text? && Strip(lines[pos].text) == "}" ==>
      ParseLevel(lines, pos, config) == (Ok(config), pos + 1)
    ensures pos < |lines| && lines[pos] == Undecodable ==> ParseLevel(lines, pos, config) == (Ok(config), pos)
  {
  }

  /** A complete line with at least four pieces stores piece 3, case kept, under the lower-cased piece 1. */
  lemma LeafLineStored(lines: seq<Line>, pos: nat, config: map<string, Vdf>)
    requires pos < |lines| && lines[pos].Text?
    requires Complete(lines[pos].text)
    requires |Split(Strip(lines[pos].text), '"')| >= 4
    ensures var elements := Split(Strip(lines[pos].text), '"');
      ParseLevel(lines, pos, config) == ParseLevel(lines, pos + 1, config[Lower(elements[1]) := Str(elements[3])])
  {
    assert lines[pos].text != "";
  }

  /**
   * A complete line with at least four pieces stores piece 3, case kept, under
   * the lower-cased piece 1; a second such line with the same lower-cased key
   * right after it overwrites the first value.
   */
  lemma LeafLinesOverwrite(lines: seq<Line>, pos: nat, config: map<string, Vdf>)
    requires pos + 2 <= |lines|
    requires lines[pos].Text? && lines[pos + 1].Text?
    requires Complete(lines[pos].text) && Complete(lines[pos + 1].text)
    requires |Split(Strip(lines[pos].text), '"')| >= 4 && |Split(Strip(lines[pos + 1].text), '"')| >= 4
    requires Lower(Split(Strip(lines[pos].text), '"')[1]) == Lower(Split(Strip(lines[pos + 1].text), '"')[1])
    ensures var second := Split(Strip(lines[pos + 1].text), '"');
      ParseLevel(lines, pos, config) == ParseLevel(lines, pos + 2, config[Lower(second[1]) := Str(second[3])])
  {
    var first := Split(Strip(lines[pos].text), '"');
    var second := Split(Strip(lines[pos + 1].text), '"');
    var key := Lower(second[1]);
    var once, twice := config[key := Str(first[3])], config[key := Str(second[3])];
    assert once[key := Str(second[3])] == twice;
    LeafLineStored(lines, pos, config);
    LeafLineStored(lines, pos + 1, once);
  }

  /**
   * A complete line with fewer than three pieces (IndexError in the source)
   * is skipped: the level goes on with the next line and the same map.
   */
  lemma ShortLineSkipped(lines: seq<Line>, pos: nat, config: map<string, Vdf>)
    requires pos < |lines| && lines[pos].Text?
    requires Complete(lines[pos].text)
    requires |Split(Strip(lines[pos].text), '"')| < 3
    ensures ParseLevel(lines, pos, config) == ParseLevel(lines, pos + 1, config)
  {
    assert lines[pos].text != "";
    assert Strip(lines[pos].text) != "}";
  }

  /**
   * A line that does not end in `"` once trimmed is joined with the next one,
   * its last character (the newline) dropped, before it is split.
   */
  lemma IncompleteLineJoined(lines: seq<Line>, pos: nat, line: string)
    requires pos < |lines| && lines[pos].Text? && lines[pos].text != ""
    requires line != "" && !Complete(line)
    ensures JoinLines(lines, pos, line) == JoinLines(lines, pos + 1, line[..|line| - 1] + lines[pos].text)
  {
  }

  // ---------------------------------------------------------------------------
  // A KeyValues writer, and the round trip through the parser.
  // ---------------------------------------------------------------------------

  /**
   * What a KeyValues text holds, in file order: `"key" "value"` leaves,
   * `"key"` blocks with their children, and stray malformed lines (a text
   * ending in a single `"`).
   */
  datatype Entry = Leaf(key: string, value: string) | Block(key: string, children: seq<Entry>) | Stray(text: string)

  /** Text Steam can write between quotes on one line: no `"` and no line break. */
  predicate Plain(s: string) {
    '"' !in s && '\n' !in s
  }

  /** Keys, values and stray texts are plain; a stray line's text starts with no whitespace. */
  predicate WellFormed(es: seq<Entry>) {
    es == [] ||
    (&& (match es[0]
         case Leaf(k, v) => Plain(k) && Plain(v)
         case Block(k, ch) => Plain(k) && WellFormed(ch)
         case Stray(t) => Plain(t) && (t == [] || !IsSpace(t[0])))
     && WellFormed(es[1..]))
  }

  function Indent(depth: nat): (s: string)
    ensures |s| == depth && AllSpace(s)
  {
    if depth == 0 then "" else "\t" + Indent(depth - 1)
  }

  function Quoted(k: string): string {
    "\"" + k + "\""
  }

  function LeafText(k: string, v: string): string {
    Quoted(k) + "\t\t" + Quoted(v)
  }

  /** The lines Steam writes for `es` at nesting depth `depth`, tab-indented. */
  function Emit(es: seq<Entry>, depth: nat): seq<Line> {
    if es == [] then []
    else
      (match es[0]
       case Leaf(k, v) => [Text(Indent(depth) + LeafText(k, v) + "\n")]
       case Block(k, ch) =>
         [Text(Indent(depth) + Quoted(k) + "\n"), Text(Indent(depth) + "{\n")]
         + Emit(ch, depth + 1)
         + [Text(Indent(depth) + "}\n")]
       case Stray(t) => [Text(Indent(depth) + t + "\"\n")])
      + Emit(es[1..], depth)
  }

  /** The map `es` stands for: keys lower-cased, later entries overwriting earlier ones, stray lines ignored. */
  function Apply(es: seq<Entry>, config: map<string, Vdf>): map<string, Vdf> {
    if es == [] then config
    else
      var next := match es[0]
        case Leaf(k, v) => config[Lower(k) := Str(v)]
        case Block(k, ch) => config[Lower(k) := Dict(Apply(ch, map[]))]
        case Stray(_) => config;
      Apply(es[1..], next)
  }

  /** `es` without its stray lines, at every depth. */
  function Clean(es: seq<Entry>): seq<Entry> {
    if es == [] then []
    else
      (match es[0]
       case Block(k, ch) => [Block(k, Clean(ch))]
       case Stray(_) => []
       case Leaf(k, v) => [Leaf(k, v)])
      + Clean(es[1..])
  }

  lemma SplitQuoted(k: string)
    requires Plain(k)
    ensures Split(Quoted(k), '"') == ["", k, ""]
  {
    var parts := ["", k, ""];
    assert parts[1..] == [k, ""] && parts[1..][1..] == [""];
    assert JoinWith(parts[1..], '"') == k + "\"";
    assert JoinWith(parts, '"') == Quoted(k);
    SplitJoin(["", k, ""], '"');
  }

  lemma SplitLeaf(k: string, v: string)
    requires Plain(k) && Plain(v)
    ensures Split(LeafText(k, v), '"') == ["", k, "\t\t", v, ""]
  {
    var parts := ["", k, "\t\t", v, ""];
    assert parts[1..] == [k, "\t\t", v, ""];
    assert parts[2..] == [ "\t\t", v, ""] == parts[1..][1..];
    assert parts[3..] == [v, ""] == parts[2..][1..];
    assert parts[4..] == [""] == parts[3..][1..];
    assert JoinWith(parts[3..], '"') == v + "\"";
    assert JoinWith(parts[2..], '"') == "\t\t" + "\"" + v + "\"";
    assert JoinWith(parts, '"') == LeafText(k, v);
    SplitJoin(["", k, "\t\t", v, ""], '"');
  }

  lemma SplitStray(t: string)
    requires Plain(t)
    ensures Split(t + "\"", '"') == [t, ""]
  {
    var parts := [t, ""];
    assert parts[1..] == [""];
    assert JoinWith(parts, '"') == t + "\"";
    SplitJoin([t, ""], '"');
  }

  /**
   * One complete line at the cursor (not a `}` line): what the parser does
   * with it depends only on the pieces of its trimmed text.
   */
  lemma LineStep(lines: seq<Line>, pos: nat, line: string, config: map<string, Vdf>)
    requires pos < |lines| && lines[pos] == Text(line)
    requires Complete(line) && Strip(line) != "}"
    ensures var elements := Split(Strip(line), '"');
      ParseLevel(lines, pos, config) ==
        if |elements| == 3 then
          var (skipped, q') := ReadAt(lines, pos + 1);
          if skipped.DecodeFailure? then (Raised(UnicodeDecodeError), q')
          else
            var (nested, n) := ParseLevel(lines, q', map[]);
            if nested.Raised? then (Raised(nested.error), n)
            else ParseLevel(lines, n, config[Lower(elements[1]) := Dict(nested.value)])
        else if |elements| >= 4 then ParseLevel(lines, pos + 1, config[Lower(elements[1]) := Str(elements[3])])
        else ParseLevel(lines, pos + 1, config)
  {
    assert ReadAt(lines, pos) == (Read(line), pos + 1);
    assert JoinLines(lines, pos + 1, line) == (Ok(line), pos + 1);
  }

  /**
   * A parser of one level: from a cursor and the map built so far, the map
   * returned (or the exception raised) and the cursor left behind.
   */
  type Parser = (nat, map<string, Vdf>) -> (Outcome<map<string, Vdf>>, nat)

  /** vdf_parse over `lines`, as a Parser (a cursor past the end stands for the end). */
  ghost function ParserOf(lines: seq<Line>): Parser {
    (p: nat, c: map<string, Vdf>) => if p <= |lines| then ParseLevel(lines, p, c) else (Ok(c), p)
  }

  /** At `pos` the parser stores `k` = `v` and goes on with the next line. */
  ghost predicate LeafAt(parse: Parser, pos: nat, k: string, v: string) {
    forall c :: parse(pos, c) == parse(pos + 1, c[Lower(k) := Str(v)])
  }

  /** At `pos` the parser skips a line. */
  ghost predicate SkipAt(parse: Parser, pos: nat) {
    forall c :: parse(pos, c) == parse(pos + 1, c)
  }

  /** At `pos` the parser opens a block `k` whose entries start at `pos + 2`, and stores it once that level returns. */
  ghost predicate BlockAt(parse: Parser, pos: nat, k: string) {
    forall c :: parse(pos, c) ==
      var (nested, n) := parse(pos + 2, map[]);
      if nested.Raised? then (Raised(nested.error), n)
      else parse(n, c[Lower(k) := Dict(nested.value)])
  }

  /** At `pos` the level ends, returning its map unchanged and leaving the cursor at `after`. */
  ghost predicate EndAt(parse: Parser, pos: nat, after: nat) {
    forall c :: parse(pos, c) == (Ok(c), after)
  }

  /** One leaf line written by Emit: stored under its lower-cased key. */
  lemma LeafStep(lines: seq<Line>, pos: nat, k: string, v: string, depth: nat)
    requires pos < |lines| && lines[pos] == Text(Indent(depth) + LeafText(k, v) + "\n")
    requires Plain(k) && Plain(v)
    ensures LeafAt(ParserOf(lines), pos, k, v)
  {
    var line := Indent(depth) + LeafText(k, v) + "\n";
    StripPadded(Indent(depth), LeafText(k, v), "\n");
    assert Strip(line)[0] == '"';
    SplitLeaf(k, v);
    forall c ensures ParseLevel(lines, pos, c) == ParseLevel(lines, pos + 1, c[Lower(k) := Str(v)]) {
      LineStep(lines, pos, line, c);
    }
  }

  /** One stray line written by Emit: skipped. */
  lemma StrayStep(lines: seq<Line>, pos: nat, t: string, depth: nat)
    requires pos < |lines| && lines[pos] == Text(Indent(depth) + t + "\"\n")
    requires Plain(t) && (t == [] || !IsSpace(t[0]))
    ensures SkipAt(ParserOf(lines), pos)
  {
    var line := Indent(depth) + t + "\"\n";
    assert line == Indent(depth) + (t + "\"") + "\n";
    StripPadded(Indent(depth), t + "\"", "\n");
    assert Strip(line) == t + "\"";
    assert Strip(line) != "}" by {
      if t == [] { assert Strip(line)[0] == '"'; } else { assert |Strip(line)| >= 2; }
    }
    SplitStray(t);
    forall c ensures ParseLevel(lines, pos, c) == ParseLevel(lines, pos + 1, c) {
      LineStep(lines, pos, line, c);
    }
  }

  /** The key line and `{` line of a block written by Emit: the block is parsed from the line after the `{`. */
  lemma BlockStep(lines: seq<Line>, pos: nat, k: string, depth: nat)
    requires pos + 2 <= |lines|
    requires lines[pos] == Text(Indent(depth) + Quoted(k) + "\n") && lines[pos + 1] == Text(Indent(depth) + "{\n")
    requires Plain(k)
    ensures BlockAt(ParserOf(lines), pos, k)
  {
    var line := Indent(depth) + Quoted(k) + "\n";
    StripPadded(Indent(depth), Quoted(k), "\n");
    assert Strip(line)[0] == '"';
    SplitQuoted(k);
    assert ReadAt(lines, pos + 1) == (Read(Indent(depth) + "{\n"), pos + 2);
    forall c ensures ParseLevel(lines, pos, c) ==
         var (nested, n) := ParseLevel(lines, pos + 2, map[]);
         if nested.Raised? then (Raised(nested.error), n)
         else ParseLevel(lines, n, c[Lower(k) := Dict(nested.value)])
    {
      LineStep(lines, pos, line, c);
    }
  }

  /** The closing line Emit writes for a block ends the block's level, consuming the line. */
  lemma CloseStep(lines: seq<Line>, i: nat, depth: nat)
    requires i < |lines| && lines[i] == Text(Indent(depth) + "}\n")
    ensures EndAt(ParserOf(lines), i, i + 1)
  {
    assert Indent(depth) + "}\n" == Indent(depth) + "}" + "\n";
    StripPadded(Indent(depth), "}", "\n");
    forall c ensures ParserOf(lines)(i, c) == (Ok(c), i + 1) {
      ParseStops(lines, i, c);
    }
  }

  /** The lines `s` stand in `lines` from `pos` on, one by one. */
  predicate At(lines: seq<Line>, pos: nat, s: seq<Line>) {
    pos + |s| <= |lines| && forall i :: 0 <= i < |s| ==> lines[pos + i] == s[i]
  }

  /** Lines holding `head + tail` at `pos` hold `head` there and `tail` right after it. */
  lemma AtConcat(lines: seq<Line>, pos: nat, head: seq<Line>, tail: seq<Line>)
    requires At(lines, pos, head + tail)
    ensures At(lines, pos, head) && At(lines, pos + |head|, tail)
  {
    forall i | 0 <= i < |head| ensures lines[pos + i] == head[i] {
      assert (head + tail)[i] == head[i];
    }
    forall i | 0 <= i < |tail| ensures lines[pos + |head| + i] == tail[i] {
      assert (head + tail)[|head| + i] == tail[i];
    }
  }

  /** The number of lines Emit writes for `es`. */
  function LineCount(es: seq<Entry>): nat
    decreases es
  {
    if es == [] then 0
    else (match es[0] case Block(_, ch) => 3 + LineCount(ch) case _ => 1) + LineCount(es[1..])
  }

  lemma {:induction false} EmitLength(es: seq<Entry>, depth: nat)
    ensures |Emit(es, depth)| == LineCount(es)
    decreases es
  {
    if es != [] {
      EmitLength(es[1..], depth);
      if es[0].Block? {
        EmitLength(es[0].children, depth + 1);
      }
    }
  }

  /** The lines written for `es` at nesting depth `depth` stand in `lines` from `pos` on, line by line. */
  predicate Written(lines: seq<Line>, pos: nat, es: seq<Entry>, depth: nat)
    decreases es
  {
    if es == [] then pos <= |lines|
    else match es[0]
      case Leaf(k, v) =>
        && pos < |lines|
        && lines[pos] == Text(Indent(depth) + LeafText(k, v) + "\n")
        && Written(lines, pos + 1, es[1..], depth)
      case Stray(t) =>
        && pos < |lines|
        && lines[pos] == Text(Indent(depth) + t + "\"\n")
        && Written(lines, pos + 1, es[1..], depth)
      case Block(k, ch) =>
        var close := pos + 2 + LineCount(ch);
        && close < |lines|
        && lines[pos] == Text(Indent(depth) + Quoted(k) + "\n")
        && lines[pos + 1] == Text(Indent(depth) + "{\n")
        && Written(lines, pos + 2, ch, depth + 1)
        && lines[close] == Text(Indent(depth) + "}\n")
        && Written(lines, close + 1, es[1..], depth)
  }

  /** Lines holding Emit's output for a single-line first entry at `pos` hold that line, then the rest. */
  lemma WrittenOfEmitLine(lines: seq<Line>, pos: nat, es: seq<Entry>, depth: nat)
    requires es != [] && !es[0].Block?
    requires At(lines, pos, Emit(es, depth))
    ensures pos < |lines| && lines[pos] == Emit(es, depth)[0]
    ensures At(lines, pos + 1, Emit(es[1..], depth))
  {
    EmitLine(es, depth);
    AtHead(lines, pos, Emit(es, depth)[0], Emit(es[1..], depth));
  }

  /** Lines holding `[first] + rest` at `pos` hold `first` there and `rest` right after it. */
  lemma AtHead(lines: seq<Line>, pos: nat, first: Line, rest: seq<Line>)
    requires At(lines, pos, [first] + rest)
    ensures pos < |lines| && lines[pos] == first
    ensures At(lines, pos + 1, rest)
  {
    AtConcat(lines, pos, [first], rest);
    assert lines[pos + 0] == [first][0];
  }

  /** Emit's output for a leaf or a stray line: that one line, then the rest. */
  lemma EmitLine(es: seq<Entry>, depth: nat)
    requires es != [] && !es[0].Block?
    ensures |Emit(es, depth)| >= 1
    ensures Emit(es, depth) == [Emit(es, depth)[0]] + Emit(es[1..], depth)
  {
  }

  /** Emit's output for a block: key line, `{`, the children one level deeper, `}`, then the rest. */
  lemma EmitBlock(es: seq<Entry>, depth: nat)
    requires es != [] && es[0].Block?
    ensures Emit(es, depth) ==
      BlockLines(es[0].key, Emit(es[0].children, depth + 1), depth) + Emit(es[1..], depth)
  {
  }

  function BlockLines(k: string, inner: seq<Line>, depth: nat): seq<Line> {
    [Text(Indent(depth) + Quoted(k) + "\n"), Text(Indent(depth) + "{\n")] + inner + [Text(Indent(depth) + "}\n")]
  }

  /** Lines holding a block's lines at `pos`, then `rest`: key line, `{`, children, `}`, rest. */
  lemma BlockThenRest(lines: seq<Line>, pos: nat, k: string, inner: seq<Line>, rest: seq<Line>, depth: nat)
    requires At(lines, pos, BlockLines(k, inner, depth) + rest)
    ensures pos + 2 + |inner| < |lines|
    ensures lines[pos] == Text(Indent(depth) + Quoted(k) + "\n")
    ensures lines[pos + 1] == Text(Indent(depth) + "{\n")
    ensures At(lines, pos + 2, inner)
    ensures lines[pos + 2 + |inner|] == Text(Indent(depth) + "}\n")
    ensures At(lines, pos + 3 + |inner|, rest)
  {
    var opening := [Text(Indent(depth) + Quoted(k) + "\n"), Text(Indent(depth) + "{\n")];
    var closing := [Text(Indent(depth) + "}\n")];
    assert BlockLines(k, inner, depth) + rest == opening + (inner + (closing + rest));
    AtConcat(lines, pos, opening, inner + (closing + rest));
    AtConcat(lines, pos + 2, inner, closing + rest);
    AtConcat(lines, pos + 2 + |inner|, closing, rest);
    assert lines[pos + 0] == opening[0] && lines[pos + 1] == opening[1];
    assert lines[pos + 2 + |inner| + 0] == closing[0];
  }

  /** A block is Written at `pos` when its key line, `{`, children, `}` and the rest are. */
  lemma WrittenOfBlock(lines: seq<Line>, pos: nat, es: seq<Entry>, depth: nat)
    requires es != [] && es[0].Block?
    requires var close := pos + 2 + LineCount(es[0].children);
      && close < |lines|
      && lines[pos] == Text(Indent(depth) + Quoted(es[0].key) + "\n")
      && lines[pos + 1] == Text(Indent(depth) + "{\n")
      && Written(lines, pos + 2, es[0].children, depth + 1)
      && lines[close] == Text(Indent(depth) + "}\n")
      && Written(lines, close + 1, es[1..], depth)
    ensures Written(lines, pos, es, depth)
  {
  }

  /** Lines that hold Emit's output at `pos` are Written there. */
  lemma {:induction false} WrittenOfEmit(lines: seq<Line>, pos: nat, es: seq<Entry>, depth: nat)
    requires At(lines, pos, Emit(es, depth))
    ensures Written(lines, pos, es, depth)
    decreases es, 1
  {
    if es != [] {
      if es[0].Block? {
        WrittenOfEmitBlock(lines, pos, es, depth);
      } else {
        WrittenOfEmitLine(lines, pos, es, depth);
        WrittenOfEmit(lines, pos + 1, es[1..], depth);
      }
    }
  }

  /** The block case of WrittenOfEmit: the block's lines, then the rest, are Written. */
  lemma {:induction false} WrittenOfEmitBlock(lines: seq<Line>, pos: nat, es: seq<Entry>, depth: nat)
    requires es != [] && es[0].Block?
    requires At(lines, pos, Emit(es, depth))
    ensures Written(lines, pos, es, depth)
    decreases es, 0
  {
    var k, ch := es[0].key, es[0].children;
    var inner, rest := Emit(ch, depth + 1), Emit(es[1..], depth);
    EmitLength(ch, depth + 1);
    EmitBlock(es, depth);
    BlockThenRest(lines, pos, k, inner, rest, depth);
    WrittenOfEmit(lines, pos + 2, ch, depth + 1);
    WrittenOfEmit(lines, pos + 3 + |inner|, es[1..], depth);
    WrittenOfBlock(lines, pos, es, depth);
  }

  /** How `parse` steps through the lines of `es` standing at `pos`, entry by entry. */
  ghost predicate Steps(parse: Parser, pos: nat, es: seq<Entry>)
    decreases es
  {
    es != [] ==>
      match es[0]
      case Leaf(k, v) => LeafAt(parse, pos, k, v) && Steps(parse, pos + 1, es[1..])
      case Stray(_) => SkipAt(parse, pos) && Steps(parse, pos + 1, es[1..])
      case Block(k, ch) =>
        var close := pos + 2 + LineCount(ch);
        && BlockAt(parse, pos, k)
        && Steps(parse, pos + 2, ch)
        && EndAt(parse, close, close + 1)
        && Steps(parse, close + 1, es[1..])
  }

  /** vdf_parse steps through the lines Emit writes for well-formed entries as those entries say. */
  lemma {:induction false} StepsOfWritten(lines: seq<Line>, pos: nat, es: seq<Entry>, depth: nat)
    requires WellFormed(es)
    requires Written(lines, pos, es, depth)
    ensures Steps(ParserOf(lines), pos, es)
    decreases es
  {
    if es != [] {
      match es[0]
      case Leaf(k, v) =>
        LeafStep(lines, pos, k, v, depth);
        StepsOfWritten(lines, pos + 1, es[1..], depth);
      case Stray(t) =>
        StrayStep(lines, pos, t, depth);
        StepsOfWritten(lines, pos + 1, es[1..], depth);
      case Block(k, ch) =>
        var close := pos + 2 + LineCount(ch);
        BlockStep(lines, pos, k, depth);
        StepsOfWritten(lines, pos + 2, ch, depth + 1);
        CloseStep(lines, close, depth);
        StepsOfWritten(lines, close + 1, es[1..], depth);
    }
  }

  /**
   * Round trip: a level parser that steps through the lines of `es` as the
   * entries say, and then meets the end of its level, returns exactly the map
   * `es` stands for, with the cursor where that end leaves it. Nested blocks,
   * overwriting and stray lines included.
   */
  lemma {:induction false} ParseEmitted(parse: Parser, pos: nat, es: seq<Entry>, config: map<string, Vdf>, after: nat)
    requires Steps(parse, pos, es)
    requires EndAt(parse, pos + LineCount(es), after)
    ensures parse(pos, config) == (Ok(Apply(es, config)), after)
    decreases es
  {
    if es != [] {
      match es[0]
      case Leaf(k, v) =>
        ParseEmitted(parse, pos + 1, es[1..], config[Lower(k) := Str(v)], after);
      case Stray(_) =>
        ParseEmitted(parse, pos + 1, es[1..], config, after);
      case Block(k, ch) =>
        var close := pos + 2 + LineCount(ch);
        ParseEmitted(parse, pos + 2, ch, map[], close + 1);
        ParseEmitted(parse, close + 1, es[1..], config[Lower(k) := Dict(Apply(ch, map[]))], after);
    }
  }

  /**
   * Malformed lines of the one shape a tree holds, a plain text followed by
   * one lone `"`, are tolerated at any depth: the map the tree stands for is
   * the same without them.
   */
  lemma {:induction false} StrayLinesIgnored(es: seq<Entry>, config: map<string, Vdf>)
    ensures Apply(Clean(es), config) == Apply(es, config)
    decreases es
  {
    if es != [] {
      match es[0]
      case Leaf(k, v) =>
        assert Clean(es) == [Leaf(k, v)] + Clean(es[1..]);
        StrayLinesIgnored(es[1..], config[Lower(k) := Str(v)]);
      case Stray(_) =>
        assert Clean(es) == Clean(es[1..]);
        StrayLinesIgnored(es[1..], config);
      case Block(k, ch) =>
        assert Clean(es) == [Block(k, Clean(ch))] + Clean(es[1..]);
        StrayLinesIgnored(ch, map[]);
        StrayLinesIgnored(es[1..], config[Lower(k) := Dict(Apply(ch, map[]))]);
    }
  }

  /** A whole registry.vdf written from `es` parses to the map `es` stands for. */
  lemma ParseWholeFile(es: seq<Entry>)
    requires WellFormed(es)
    ensures ParseLevel(Emit(es, 0), 0, map[]) == (Ok(Apply(es, map[])), |Emit(es, 0)|)
  {
    var lines := Emit(es, 0);
    assert At(lines, 0, lines) by {
      forall i | 0 <= i < |lines| ensures lines[0 + i] == lines[i] { }
    }
    WrittenOfEmit(lines, 0, es, 0);
    StepsOfWritten(lines, 0, es, 0);
    EmitLength(es, 0);
    forall c ensures ParserOf(lines)(|lines|, c) == (Ok(c), |lines|) {
      ParseStops(lines, |lines|, c);
    }
    ParseEmitted(ParserOf(lines), 0, es, map[], |lines|);
  }
  /** No top-level entry of `es` from index `from` on stores a value under `key`. */
  predicate Untouched(es: seq<Entry>, from: nat, key: string) {
    forall m :: from <= m < |es| ==> es[m].Stray? || Lower(es[m].key) != key
  }

  lemma UntouchedTail(es: seq<Entry>, from: nat, key: string)
    requires es != [] && 1 <= from
    requires Untouched(es, from, key)
    ensures Untouched(es[1..], from - 1, key)
  {
    forall m | from - 1 <= m < |es[1..]|
      ensures es[1..][m].Stray? || Lower(es[1..][m].key) != key
    {
      assert es[1..][m] == es[m + 1];
    }
  }

  /** The map after one top-level entry of a tree. */
  function ApplyOne(e: Entry, config: map<string, Vdf>): map<string, Vdf> {
    match e
    case Leaf(k, v) => config[Lower(k) := Str(v)]
    case Block(k, ch) => config[Lower(k) := Dict(Apply(ch, map[]))]
    case Stray(_) => config
  }

  /** Entries that store under other keys keep the value a key already has. */
  lemma {:induction false} ApplyKeeps(es: seq<Entry>, config: map<string, Vdf>, key: string)
    requires Untouched(es, 0, key)
    requires key in config
    ensures key in Apply(es, config) && Apply(es, config)[key] == config[key]
    decreases es
  {
    if es != [] {
      UntouchedTail(es, 1, key);
      assert Apply(es, config) == Apply(es[1..], ApplyOne(es[0], config));
      ApplyKeeps(es[1..], ApplyOne(es[0], config), key);
    }
  }

  /**
   * The last top-level leaf of a key decides its value: whatever the entries
   * before it stored under that key, it is overwritten.
   */
  lemma {:induction false} LastLeafWins(es: seq<Entry>, config: map<string, Vdf>, j: nat)
    requires j < |es| && es[j].Leaf?
    requires Untouched(es, j + 1, Lower(es[j].key))
    ensures Lower(es[j].key) in Apply(es, config)
    ensures Apply(es, config)[Lower(es[j].key)] == Str(es[j].value)
    decreases es
  {
    var key := Lower(es[j].key);
    assert Apply(es, config) == Apply(es[1..], ApplyOne(es[0], config));
    UntouchedTail(es, j + 1, key);
    if j == 0 {
      ApplyKeeps(es[1..], ApplyOne(es[0], config), key);
    } else {
      assert es[1..][j - 1] == es[j];
      LastLeafWins(es[1..], ApplyOne(es[0], config), j - 1);
    }
  }

  /**
   * In a registry.vdf written from `es`, a later leaf line overwrites an
   * earlier one with the same lower-cased key, whatever lines lie between
   * them, as long as no top-level line after it stores under that key.
   */
  lemma LaterLeafOverwrites(es: seq<Entry>, i: nat, j: nat)
    requires WellFormed(es)
    requires i < j < |es| && es[i].Leaf? && es[j].Leaf? && Lower(es[i].key) == Lower(es[j].key)
    requires Untouched(es, j + 1, Lower(es[j].key))
    ensures ParseLevel(Emit(es, 0), 0, map[]).0.Ok?
    ensures Lower(es[j].key) in ParseLevel(Emit(es, 0), 0, map[]).0.value
    ensures ParseLevel(Emit(es, 0), 0, map[]).0.value[Lower(es[j].key)] == Str(es[j].value)
    ensures es[i].value != es[j].value ==>
      ParseLevel(Emit(es, 0), 0, map[]).0.value[Lower(es[i].key)] != Str(es[i].value)
  {
    ParseWholeFile(es);
    LastLeafWins(es, map[], j);
  }

  /** Dropping the stray lines of a well-formed tree leaves it well formed. */
  lemma {:induction false} CleanWellFormed(es: seq<Entry>)
    requires WellFormed(es)
    ensures WellFormed(Clean(es))
    decreases es
  {
    if es != [] {
      CleanWellFormed(es[1..]);
      match es[0]
      case Leaf(k, v) =>
        var c := [Leaf(k, v)] + Clean(es[1..]);
        assert c[0] == Leaf(k, v) && c[1..] == Clean(es[1..]);
      case Stray(_) =>
        assert Clean(es) == Clean(es[1..]);
      case Block(k, ch) =>
        CleanWellFormed(ch);
        var c := [Block(k, Clean(ch))] + Clean(es[1..]);
        assert c[0] == Block(k, Clean(ch)) && c[1..] == Clean(es[1..]);
    }
  }

  /**
   * A registry.vdf written from a tree parses to the same map as the file
   * written without its malformed lines.
   */
  lemma StrayLinesIgnoredInFile(es: seq<Entry>)
    requires WellFormed(es)
    ensures ParseLevel(Emit(es, 0), 0, map[]).0 == ParseLevel(Emit(Clean(es), 0), 0, map[]).0
  {
    CleanWellFormed(es);
    StrayLinesIgnored(es, map[]);
    ParseWholeFile(es);
    ParseWholeFile(Clean(es));
  }
}
