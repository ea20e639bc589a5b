/** The status blocks of the setup steps: how a step prints one, and how the parent
    process parses the blocks out of the step's output as it streams in. */
module StatusBlocks {
  import opened Wrappers
  import opened Whitespace

  datatype Block = Block(kind: string, fields: map<string, string>)

  const START := "=== NANOCLAW SETUP: "
  const START_KEY := "=== NANOCLAW SETUP"
  const START_TAIL := " ==="
  const END := "=== END ==="

  // ---------- Text ----------

  predicate Visible(c: char) {
    !IsSpace(c as int)
  }

  predicate Word(s: string) {
    s != "" && forall i :: 0 <= i < |s| ==> Visible(s[i])
  }

  predicate Trimmed(s: string) {
    s == "" || (Visible(s[0]) && Visible(s[|s| - 1]))
  }

  function Trim(s: string): (r: string)
    ensures Trimmed(r)
    ensures Trimmed(s) ==> r == s
    ensures forall c :: c in r ==> c in s
    decreases |s|
  {
    if s == "" then s
    else if !Visible(s[0]) then Trim(s[1..])
    else if !Visible(s[|s| - 1]) then Trim(s[..|s| - 1])
    else s
  }

  /** The first position that holds the character, or the length. */
  function Find(s: string, c: char): (i: nat)
    ensures i <= |s|
    ensures i < |s| ==> s[i] == c
    ensures forall j :: 0 <= j < i ==> s[j] != c
  {
    if s == "" || s[0] == c then 0 else 1 + Find(s[1..], c)
  }

  /** The length of the leading run of visible characters. */
  function WordLength(s: string): (n: nat)
    ensures n <= |s|
    ensures forall i :: 0 <= i < n ==> Visible(s[i])
    ensures n < |s| ==> !Visible(s[n])
  {
    if s == "" || !Visible(s[0]) then 0 else 1 + WordLength(s[1..])
  }

  // ---------- One line ----------

  /** The word that a text starts with, when the closing marks follow it. */
  function MarkedWord(rest: string): Option<string> {
    var n := WordLength(rest);
    if n > 0 && START_TAIL <= rest[n..] then Some(rest[..n]) else None
  }

  function MatchStart(line: string): Option<string> {
    if START <= line then MarkedWord(line[|START|..]) else None
  }

  lemma PrefixOfConcat(a: string, b: string, s: string)
    ensures a + b <= s <==> a <= s && b <= s[|a|..]
  {
    if a + b <= s {
      assert s == a + b + s[|a + b|..];
    }
    if a <= s && b <= s[|a|..] {
      assert s == a + (b + s[|a|..][|b|..]);
      assert s == (a + b) + s[|a|..][|b|..];
    }
  }

  lemma WordLengthOf(s: string, n: nat)
    requires n <= |s| && (forall i :: 0 <= i < n ==> Visible(s[i])) && (n < |s| ==> !Visible(s[n]))
    ensures WordLength(s) == n
  {
  }

  lemma MarkedWordIff(rest: string, word: string)
    ensures MarkedWord(rest) == Some(word) <==> Word(word) && word + START_TAIL <= rest
  {
    PrefixOfConcat(word, START_TAIL, rest);
    if Word(word) && word <= rest && START_TAIL <= rest[|word|..] {
      assert rest[|word|] == rest[|word|..][0] == ' ';
      assert !Visible(' ');
      assert forall i :: 0 <= i < |word| ==> rest[i] == word[i];
      WordLengthOf(rest, |word|);
      assert rest[..|word|] == word;
    }
    if MarkedWord(rest) == Some(word) {
      assert forall i :: 0 <= i < |word| ==> word[i] == rest[i];
      assert word <= rest;
    }
  }

  /** The leading run is the only word a start line can carry. */
  lemma MatchStartIff(line: string, kind: string)
    ensures MatchStart(line) == Some(kind) <==> Word(kind) && START + (kind + START_TAIL) <= line
  {
    PrefixOfConcat(START, kind + START_TAIL, line);
    if START <= line {
      MarkedWordIff(line[|START|..], kind);
    }
  }

  /** The parser between two characters. */
  datatype Parser = Parser(lineBuf: string, current: Option<Block>, blocks: seq<Block>)

  const IDLE := Parser("", None, [])

  /** Setting a field of a plain object: one name stands for its prototype, and
      setting that to a text has no effect. */
  function SetField(b: Block, key: string, value: string): Block {
    if key == "__proto__" then b else b.(fields := b.fields[key := value])
  }

  function ProcessLine(p: Parser, line: string): Parser {
    var start := MatchStart(line);
    if start.Some? then p.(current := Some(Block(start.value, map[])))
    else if END <= line then
      if p.current.Some? then p.(blocks := p.blocks + [p.current.value], current := None) else p
    else if p.current.None? then p
    else
      var colon := Find(line, ':');
      if colon == |line| then p
      else
        var key := Trim(line[..colon]);
        if key == "" then p else p.(current := Some(SetField(p.current.value, key, Trim(line[colon + 1..]))))
  }

  // ---------- The stream, one character at a time ----------

  function FeedChar(p: Parser, c: char): Parser {
    if c == '\n' then ProcessLine(p.(lineBuf := ""), p.lineBuf) else p.(lineBuf := p.lineBuf + [c])
  }

  function Feed(p: Parser, text: string): Parser
    decreases |text|
  {
    if text == "" then p else Feed(FeedChar(p, text[0]), text[1..])
  }

  lemma {:induction false} FeedConcat(p: Parser, a: string, b: string)
    ensures Feed(Feed(p, a), b) == Feed(p, a + b)
    decreases |a|
  {
    if a == "" {
      assert a + b == b;
    } else {
      FeedConcat(FeedChar(p, a[0]), a[1..], b);
      assert (a + b)[1..] == a[1..] + b;
    }
  }

  function FeedAll(p: Parser, chunks: seq<string>): Parser
    decreases |chunks|
  {
    if chunks == [] then p else FeedAll(Feed(p, chunks[0]), chunks[1..])
  }

  function Flatten(chunks: seq<string>): string {
    if chunks == [] then "" else chunks[0] + Flatten(chunks[1..])
  }

  /** However the output is cut into chunks, the parse is that of the whole. */
  lemma {:induction false} ChunkingIsInvisible(p: Parser, chunks: seq<string>)
    ensures FeedAll(p, chunks) == Feed(p, Flatten(chunks))
    decreases |chunks|
  {
    if chunks != [] {
      ChunkingIsInvisible(Feed(p, chunks[0]), chunks[1..]);
      FeedConcat(p, chunks[0], Flatten(chunks[1..]));
    }
  }

  lemma {:induction false} FeedPartialLine(p: Parser, s: string)
    requires '\n' !in s
    ensures Feed(p, s) == p.(lineBuf := p.lineBuf + s)
    decreases |s|
  {
    if s == "" {
      assert p.lineBuf + s == p.lineBuf;
    } else {
      assert s[0] in s;
      FeedPartialLine(FeedChar(p, s[0]), s[1..]);
      assert p.lineBuf + [s[0]] + s[1..] == p.lineBuf + s;
    }
  }

  lemma FeedLine(p: Parser, line: string, rest: string)
    requires '\n' !in line && p.lineBuf == ""
    ensures Feed(p, line + "\n" + rest) == Feed(ProcessLine(p, line), rest)
  {
    FeedPartialLine(p, line);
    assert line + "\n" + rest == line + ("\n" + rest);
    FeedConcat(p, line, "\n" + rest);
    assert ("\n" + rest)[1..] == rest;
    assert "" + line == line;
  }

  lemma FeedBuffered(p: Parser, chunk: string)
    requires '\n' !in p.lineBuf
    ensures Feed(p.(lineBuf := ""), p.lineBuf + chunk) == Feed(p, chunk)
  {
    FeedPartialLine(p.(lineBuf := ""), p.lineBuf);
    assert "" + p.lineBuf == p.lineBuf;
    FeedConcat(p.(lineBuf := ""), p.lineBuf, chunk);
  }

  lemma FeedFirstLine(p: Parser, text: string, i: nat)
    requires p.lineBuf == "" && i == Find(text, '\n') < |text|
    ensures Feed(p, text) == Feed(ProcessLine(p, text[..i]), text[i + 1..])
  {
    var line, rest := text[..i], text[i + 1..];
    FirstLine(text, i);
    FeedLine(p, line, rest);
  }

  lemma FirstLine(text: string, i: nat)
    requires i < |text| && text[i] == '\n' && forall j :: 0 <= j < i ==> text[j] != '\n'
    ensures text == text[..i] + "\n" + text[i + 1..] && '\n' !in text[..i]
  {
  }

  class StatusStream {
    var lineBuf: string
    var current: Option<Block>
    var blocks: seq<Block>
    var transcript: string

    /** The blocks that the callback has been given, in order. */
    var reported: seq<Block>

    /** Every block was reported when it closed. */
    ghost predicate Valid()
      reads this
    {
      '\n' !in lineBuf && reported == blocks
    }

    ghost function View(): Parser
      reads this
    {
      Parser(lineBuf, current, blocks)
    }

    constructor ()
      ensures Valid() && View() == IDLE && transcript == ""
    {
      lineBuf, current, blocks, transcript, reported := "", None, [], "", [];
    }

    /** The whole buffer is searched for complete lines, which is the same as feeding
        the chunk one character at a time. */
    method Write(chunk: string)
      requires Valid()
      modifies this
      ensures Valid()
      ensures View() == Feed(old(View()), chunk)
      ensures transcript == old(transcript) + chunk
    {
      ghost var before := View();
      transcript := transcript + chunk;
      FeedBuffered(before, chunk);
      lineBuf := lineBuf + chunk;
      var idx := Find(lineBuf, '\n');
      while idx < |lineBuf|
        invariant idx == Find(lineBuf, '\n')
        invariant Feed(Parser("", current, blocks), lineBuf) == Feed(before, chunk)
        invariant transcript == old(transcript) + chunk && reported == blocks
        decreases |lineBuf|
      {
        var line := lineBuf[..idx];
        FeedFirstLine(Parser("", current, blocks), lineBuf, idx);
        lineBuf := lineBuf[idx + 1..];
        ProcessOne(line);
        idx := Find(lineBuf, '\n');
      }
      assert lineBuf[..idx] == lineBuf;
      FeedPartialLine(Parser("", current, blocks), lineBuf);
      assert "" + lineBuf == lineBuf;
    }

    method ProcessOne(line: string)
      requires reported == blocks
      modifies this`current, this`blocks, this`reported
      ensures reported == blocks
      ensures Parser("", current, blocks) == ProcessLine(Parser("", old(current), old(blocks)), line)
    {
      var start := MatchStart(line);
      if start.Some? {
        current := Some(Block(start.value, map[]));
        return;
      }
      if END <= line {
        if current.Some? {
          blocks := blocks + [current.value];
          reported := reported + [current.value];
          current := None;
        }
        return;
      }
      if current.None? { return; }
      var colon := Find(line, ':');
      if colon == |line| { return; }
      var key := Trim(line[..colon]);
      var value := Trim(line[colon + 1..]);
      if key != "" {
        current := Some(SetField(current.value, key, value));
      }
    }
  }

  // ---------- Printing a block ----------

  datatype Field = Field(key: string, value: string)

  predicate DistinctKeys(fields: seq<Field>) {
    forall i, j :: 0 <= i < j < |fields| ==> fields[i].key != fields[j].key
  }

  function FieldLine(f: Field): string {
    f.key + ": " + f.value
  }

  function FieldLines(fields: seq<Field>): seq<string> {
    if fields == [] then [] else [FieldLine(fields[0])] + FieldLines(fields[1..])
  }

  function StartLine(kind: string): string {
    START + kind + START_TAIL
  }

  /** Each line with its end. */
  function Unlines(lines: seq<string>): string {
    if lines == [] then "" else lines[0] + "\n" + Unlines(lines[1..])
  }

  function Printed(kind: string, fields: seq<Field>): string {
    Unlines([StartLine(kind)] + FieldLines(fields) + [END])
  }

  function JoinLines(lines: seq<string>): string
    requires lines != []
  {
    if |lines| == 1 then lines[0] else lines[0] + "\n" + JoinLines(lines[1..])
  }

  lemma {:induction false} JoinedWithNewline(lines: seq<string>)
    requires lines != []
    ensures JoinLines(lines) + "\n" == Unlines(lines)
  {
    if |lines| > 1 {
      JoinedWithNewline(lines[1..]);
      assert JoinLines(lines) + "\n" == lines[0] + "\n" + (JoinLines(lines[1..]) + "\n");
    } else {
      assert lines[1..] == [];
      assert Unlines(lines) == lines[0] + "\n" + "";
    }
  }

  lemma {:induction false} FieldLinesAppend(fields: seq<Field>, f: Field)
    ensures FieldLines(fields + [f]) == FieldLines(fields) + [FieldLine(f)]
  {
    if fields == [] {
      assert [] + [f] == [f] && [f][1..] == [];
    } else {
      assert (fields + [f])[1..] == fields[1..] + [f];
      FieldLinesAppend(fields[1..], f);
    }
  }

  /** What ends up on the output: the lines joined, and the final newline. */
  method EmitStatus(kind: string, fields: seq<Field>) returns (output: string)
    ensures output == Printed(kind, fields)
  {
    var lines := [StartLine(kind)];
    for i := 0 to |fields|
      invariant lines == [StartLine(kind)] + FieldLines(fields[..i])
    {
      assert fields[..i + 1] == fields[..i] + [fields[i]];
      FieldLinesAppend(fields[..i], fields[i]);
      lines := lines + [FieldLine(fields[i])];
    }
    assert fields[..|fields|] == fields;
    lines := lines + [END];
    JoinedWithNewline(lines);
    output := JoinLines(lines) + "\n";
  }

  /** What a block with one field looks like on the output. */
  lemma PrintedText(kind: string, f: Field)
    ensures Printed(kind, []) == "=== NANOCLAW SETUP: " + kind + " ===\n" + "=== END ===\n"
    ensures Printed(kind, [f]) == "=== NANOCLAW SETUP: " + kind + " ===\n" + f.key + ": " + f.value + "\n" + "=== END ===\n"
  {
    var first := StartLine(kind);
    assert first == "=== NANOCLAW SETUP: " + kind + " ===";
    assert first + "\n" == "=== NANOCLAW SETUP: " + kind + " ===\n";
    assert [f][1..] == [] && FieldLines([f]) == [FieldLine(f)];
    LinesText(first);
    LinesText(FieldLine(f));
    assert [first] + FieldLines([]) + [END] == [first, END];
    assert [first, END][1..] == [END];
    assert [first] + FieldLines([f]) + [END] == [first, FieldLine(f), END];
    assert [first, FieldLine(f), END][1..] == [FieldLine(f), END];
  }

  lemma LinesText(line: string)
    ensures Unlines([line, END]) == line + "\n" + "=== END ===\n"
  {
    assert [line, END][1..] == [END] && [END][1..] == [];
    assert Unlines([END]) == END + "\n" + "";
  }

  // ---------- What one line does ----------

  predicate BlankText(s: string) {
    forall i :: 0 <= i < |s| ==> !Visible(s[i])
  }

  lemma {:induction false} TrimPadded(left: string, s: string, right: string)
    requires BlankText(left) && BlankText(right) && Trimmed(s)
    ensures Trim(left + s + right) == s
    decreases |left| + |right|
  {
    var all := left + s + right;
    if left != "" {
      assert all[1..] == left[1..] + s + right;
      TrimPadded(left[1..], s, right);
    } else if right == "" {
      assert all == s;
    } else if s == "" {
      assert all[1..] == left + s + right[1..];
      TrimPadded(left, s, right[1..]);
    } else {
      assert all[0] == s[0] && all[|all| - 1] == right[|right| - 1];
      assert all[..|all| - 1] == left + s + right[..|right| - 1];
      TrimPadded(left, s, right[..|right| - 1]);
    }
  }

  /** The line carries the start marks around one word. */
  predicate StartsBlock(line: string, kind: string) {
    Word(kind) && "=== NANOCLAW SETUP: " + (kind + " ===") <= line
  }

  /** A start line opens a block of its type, even where another is still open; an end
      line closes the open one; a line without a colon, or outside any block, is noise. */
  lemma LineDoes(p: Parser, line: string, kind: string)
    ensures var q := ProcessLine(p, line);
      && (StartsBlock(line, kind) ==> q == Parser(p.lineBuf, Some(Block(kind, map[])), p.blocks))
      && ((forall k :: !StartsBlock(line, k)) && "=== END ===" <= line ==>
            q == Parser(p.lineBuf, None, if p.current.Some? then p.blocks + [p.current.value] else p.blocks))
      && ((forall k :: !StartsBlock(line, k)) && !("=== END ===" <= line) && (p.current.None? || ':' !in line) ==> q == p)
  {
    MatchStartIff(line, kind);
    if MatchStart(line).Some? {
      MatchStartIff(line, MatchStart(line).value);
      assert StartsBlock(line, MatchStart(line).value);
    }
  }

  /** A field line inside a block: blanks around the name and the value do not count,
      a nameless line does nothing, and only the first colon separates. */
  lemma FieldLineDoes(p: Parser, a: string, key: string, b: string, c: string, value: string, d: string)
    requires BlankText(a) && BlankText(b) && BlankText(c) && BlankText(d)
    requires Trimmed(key) && Trimmed(value) && ':' !in key && key != "__proto__" && p.current.Some?
    requires MatchStart(a + key + b + ":" + (c + value + d)).None? && !(END <= a + key + b + ":" + (c + value + d))
    ensures ProcessLine(p, a + key + b + ":" + (c + value + d)) ==
      if key == "" then p
      else p.(current := Some(Block(p.current.value.kind, p.current.value.fields[key := value])))
  {
    var before, after := a + key + b, c + value + d;
    var line := before + ":" + after;
    assert forall i :: 0 <= i < |before| ==> before[i] in a || before[i] in key || before[i] in b;
    assert Visible(':');
    FirstColon(before, after);
    TrimPadded(a, key, b);
    TrimPadded(c, value, d);
    assert line[..|before|] == before && line[|before| + 1..] == after;
  }

  // ---------- Round trip ----------

  /** The fields as an object: a later value replaces an earlier one. */
  function FieldMap(fields: seq<Field>): map<string, string> {
    if fields == [] then map[] else map[fields[0].key := fields[0].value] + FieldMap(fields[1..])
  }

  predicate CleanKey(key: string) {
    key != "" && Trimmed(key) && ':' !in key && '\n' !in key && key != "__proto__"
  }

  predicate CleanValue(value: string) {
    Trimmed(value) && '\n' !in value
  }

  predicate CleanField(f: Field) {
    CleanKey(f.key) && CleanValue(f.value)
  }

  /** The line of a field would end the block, or start another one. */
  predicate IsControl(f: Field) {
    END <= f.key || (f.key == START_KEY && MarkedWord(f.value).Some?)
  }

  predicate Printable(kind: string, fields: seq<Field>) {
    Word(kind) && forall f :: f in fields ==> CleanField(f) && !IsControl(f)
  }

  lemma FirstColon(key: string, rest: string)
    requires ':' !in key
    ensures Find(key + ":" + rest, ':') == |key|
  {
    var line := key + ":" + rest;
    assert line[|key|] == ':';
    assert forall i :: 0 <= i < |key| ==> line[i] == key[i];
  }

  lemma FieldLineParts(f: Field)
    requires CleanField(f)
    ensures var line := FieldLine(f);
      Find(line, ':') == |f.key| && Trim(line[..|f.key|]) == f.key && Trim(line[|f.key| + 1..]) == f.value
    ensures '\n' !in FieldLine(f)
  {
    var line := FieldLine(f);
    assert line == f.key + ":" + (" " + f.value);
    FirstColon(f.key, " " + f.value);
    assert line[..|f.key|] == f.key;
    assert line[|f.key| + 1..] == " " + f.value;
    assert (" " + f.value)[1..] == f.value;
    assert !Visible(' ');
  }

  lemma PrefixBeforeColon(prefix: string, key: string, rest: string)
    requires ':' !in prefix && ':' !in key
    ensures prefix <= key + ":" + rest <==> prefix <= key
  {
    var line := key + ":" + rest;
    assert line[|key|] == ':';
    if prefix <= line {
      assert forall i :: 0 <= i < |prefix| ==> prefix[i] == line[i];
    }
    assert line[..|key|] == key;
  }

  lemma SameKey(a: string, b: string, rest: string)
    requires ':' !in a && ':' !in b
    ensures a + ": " <= b + ": " + rest <==> a == b
    ensures (b + ": " + rest)[|b + ": "|..] == rest
  {
    var line := b + ": " + rest;
    if a + ": " <= line {
      var after := line[|a + ": "|..];
      assert line == a + ":" + (" " + after) == b + ":" + (" " + rest);
      FirstColon(a, " " + after);
      FirstColon(b, " " + rest);
      assert line[..|a|] == a && line[..|b|] == b;
    }
  }

  lemma ControlLine(f: Field)
    requires CleanField(f)
    ensures MatchStart(FieldLine(f)).Some? <==> f.key == START_KEY && MarkedWord(f.value).Some?
    ensures END <= FieldLine(f) <==> END <= f.key
  {
    assert f.key + ": " + f.value == f.key + ":" + (" " + f.value);
    PrefixBeforeColon(END, f.key, " " + f.value);
    assert START == START_KEY + ": ";
    SameKey(START_KEY, f.key, f.value);
  }

  lemma FieldLineSets(p: Parser, f: Field)
    requires CleanField(f) && !IsControl(f) && p.current.Some?
    ensures ProcessLine(p, FieldLine(f)) == p.(current := Some(p.current.value.(fields := p.current.value.fields[f.key := f.value])))
  {
    ControlLine(f);
    FieldLineParts(f);
  }

  function ProcessLines(p: Parser, lines: seq<string>): Parser
    decreases |lines|
  {
    if lines == [] then p else ProcessLines(ProcessLine(p, lines[0]), lines[1..])
  }

  lemma {:induction false} ProcessConcat(p: Parser, a: seq<string>, b: seq<string>)
    ensures ProcessLines(p, a + b) == ProcessLines(ProcessLines(p, a), b)
    decreases |a|
  {
    if a == [] {
      assert a + b == b;
    } else {
      assert (a + b)[1..] == a[1..] + b;
      ProcessConcat(ProcessLine(p, a[0]), a[1..], b);
    }
  }

  lemma {:induction false} FeedLines(p: Parser, lines: seq<string>)
    requires p.lineBuf == "" && forall i :: 0 <= i < |lines| ==> '\n' !in lines[i]
    ensures Feed(p, Unlines(lines)) == ProcessLines(p, lines)
    decreases |lines|
  {
    if lines != [] {
      FeedLine(p, lines[0], Unlines(lines[1..]));
      FeedLines(ProcessLine(p, lines[0]), lines[1..]);
    }
  }

  lemma ProcessFirstField(p: Parser, fields: seq<Field>)
    requires fields != []
    ensures ProcessLines(p, FieldLines(fields)) == ProcessLines(ProcessLine(p, FieldLine(fields[0])), FieldLines(fields[1..]))
  {
    assert FieldLines(fields)[1..] == FieldLines(fields[1..]);
  }

  lemma FieldSet(p: Parser, f: Field, rest: seq<Field>)
    requires CleanField(f) && !IsControl(f) && p.current.Some?
    ensures ProcessLines(p, FieldLines([f] + rest)) ==
      ProcessLines(p.(current := Some(Block(p.current.value.kind, p.current.value.fields[f.key := f.value]))), FieldLines(rest))
  {
    FieldLineSets(p, f);
    assert ([f] + rest)[1..] == rest;
    ProcessFirstField(p, [f] + rest);
  }

  lemma MapExtend(m: map<string, string>, f: Field, rest: seq<Field>)
    ensures m[f.key := f.value] + FieldMap(rest) == m + FieldMap([f] + rest)
  {
    assert ([f] + rest)[1..] == rest;
  }

  lemma {:induction false} FieldsSet(p: Parser, kind: string, m: map<string, string>, fields: seq<Field>)
    requires p.current == Some(Block(kind, m))
    requires forall f :: f in fields ==> CleanField(f) && !IsControl(f)
    ensures ProcessLines(p, FieldLines(fields)) == p.(current := Some(Block(kind, m + FieldMap(fields))))
    decreases |fields|
  {
    if fields == [] {
      assert m + map[] == m;
    } else {
      var f, rest := fields[0], fields[1..];
      assert fields == [f] + rest;
      FieldSet(p, f, rest);
      MapExtend(m, f, rest);
      FieldsSet(p.(current := Some(Block(kind, m[f.key := f.value]))), kind, m[f.key := f.value], rest);
    }
  }

  lemma {:induction false} FieldLinesAt(fields: seq<Field>)
    ensures |FieldLines(fields)| == |fields|
    ensures forall i :: 0 <= i < |fields| ==> FieldLines(fields)[i] == FieldLine(fields[i])
  {
    if fields != [] {
      FieldLinesAt(fields[1..]);
    }
  }

  lemma StartLineParses(p: Parser, kind: string)
    requires Word(kind)
    ensures ProcessLine(p, StartLine(kind)) == p.(current := Some(Block(kind, map[])))
  {
    assert StartLine(kind) == START + (kind + START_TAIL);
    MatchStartIff(StartLine(kind), kind);
  }

  lemma EndLineParses(p: Parser, b: Block)
    requires p.current == Some(b)
    ensures ProcessLine(p, END) == p.(blocks := p.blocks + [b], current := None)
  {
    assert |START| > |END|;
  }

  lemma StartLineIsOneLine(kind: string)
    requires Word(kind)
    ensures '\n' !in StartLine(kind)
  {
    assert !Visible('\n');
    assert '\n' !in START && '\n' !in START_TAIL && '\n' !in kind;
  }

  lemma PrintedIsLines(p: Parser, kind: string, fields: seq<Field>)
    requires p.lineBuf == "" && Word(kind)
    requires forall f :: f in fields ==> CleanField(f)
    ensures Feed(p, Printed(kind, fields)) ==
      ProcessLine(ProcessLines(ProcessLine(p, StartLine(kind)), FieldLines(fields)), END)
  {
    StartLineIsOneLine(kind);
    FieldLinesAt(fields);
    var lines := [StartLine(kind)] + FieldLines(fields) + [END];
    forall i | 0 <= i < |lines| ensures '\n' !in lines[i] {
      if 0 < i < |lines| - 1 {
        assert lines[i] == FieldLine(fields[i - 1]);
        FieldLineParts(fields[i - 1]);
      }
    }
    FeedLines(p, lines);
    ProcessConcat(p, [StartLine(kind)] + FieldLines(fields), [END]);
    ProcessConcat(p, [StartLine(kind)], FieldLines(fields));
    ProcessSingle(p, StartLine(kind));
    ProcessSingle(ProcessLines(p, [StartLine(kind)] + FieldLines(fields)), END);
  }

  lemma ProcessSingle(p: Parser, line: string)
    ensures ProcessLines(p, [line]) == ProcessLine(p, line)
  {
    assert [line][1..] == [];
  }

  /** A printed block between blocks adds itself. */
  lemma PrintedParses(p: Parser, kind: string, fields: seq<Field>)
    requires p.lineBuf == "" && p.current.None? && Printable(kind, fields)
    ensures Feed(p, Printed(kind, fields)) == p.(blocks := p.blocks + [Block(kind, FieldMap(fields))])
  {
    PrintedIsLines(p, kind, fields);
    StartLineParses(p, kind);
    FieldsSet(p.(current := Some(Block(kind, map[]))), kind, map[], fields);
    assert map[] + FieldMap(fields) == FieldMap(fields);
    var b := Block(kind, FieldMap(fields));
    EndLineParses(p.(current := Some(b)), b);
  }

  // ---------- Blocks among other output ----------

  /** What a step writes: a block, or a line of its own that does not start one. */
  datatype Item = Emit(kind: string, fields: seq<Field>) | Noise(line: string)

  predicate ItemOk(item: Item) {
    match item
    case Emit(kind, fields) => Printable(kind, fields)
    case Noise(line) => '\n' !in line && MatchStart(line).None?
  }

  function Output(items: seq<Item>): string {
    if items == [] then ""
    else (match items[0] case Emit(kind, fields) => Printed(kind, fields) case Noise(line) => line + "\n") + Output(items[1..])
  }

  function Emitted(items: seq<Item>): seq<Block> {
    if items == [] then []
    else (match items[0] case Emit(kind, fields) => [Block(kind, FieldMap(fields))] case Noise(_) => []) + Emitted(items[1..])
  }

  lemma {:induction false} OutputParses(p: Parser, items: seq<Item>)
    requires p.lineBuf == "" && p.current.None?
    requires forall i :: 0 <= i < |items| ==> ItemOk(items[i])
    ensures Feed(p, Output(items)) == p.(blocks := p.blocks + Emitted(items))
    decreases |items|
  {
    if items == [] {
      assert p.blocks + [] == p.blocks;
    } else {
      var tail := items[1..];
      match items[0]
      case Emit(kind, fields) =>
        var b := Block(kind, FieldMap(fields));
        PrintedParses(p, kind, fields);
        FeedConcat(p, Printed(kind, fields), Output(tail));
        OutputParses(p.(blocks := p.blocks + [b]), tail);
        assert p.blocks + [b] + Emitted(tail) == p.blocks + ([b] + Emitted(tail));
      case Noise(line) =>
        FeedLine(p, line, Output(tail));
        OutputParses(p, tail);
        assert [] + Emitted(tail) == Emitted(tail);
    }
  }

  /** Whatever chunks the output arrives in, the parser finds exactly the blocks that
      were printed, in order, and is between blocks at the end. */
  lemma StreamRoundTrip(items: seq<Item>, chunks: seq<string>)
    requires forall i :: 0 <= i < |items| ==> ItemOk(items[i])
    requires Flatten(chunks) == Output(items)
    ensures FeedAll(IDLE, chunks) == Parser("", None, Emitted(items))
  {
    ChunkingIsInvisible(IDLE, chunks);
    OutputParses(IDLE, items);
    assert [] + Emitted(items) == Emitted(items);
  }

  // ---------- Exactly the printable blocks come back ----------

  predicate CleanBlock(b: Block) {
    Word(b.kind) && forall k :: k in b.fields ==> CleanKey(k) && CleanValue(b.fields[k])
  }

  predicate CleanParser(p: Parser) {
    '\n' !in p.lineBuf && (p.current.Some? ==> CleanBlock(p.current.value)) && forall b :: b in p.blocks ==> CleanBlock(b)
  }

  lemma LineKeepsClean(p: Parser, line: string)
    requires CleanParser(p) && '\n' !in line
    ensures CleanParser(ProcessLine(p, line))
  {
    var start := MatchStart(line);
    if start.Some? {
      MatchStartIff(line, start.value);
    } else if !(END <= line) && p.current.Some? {
      var colon := Find(line, ':');
      if colon < |line| {
        var key := Trim(line[..colon]);
        assert '\n' !in line[..colon] && '\n' !in line[colon + 1..];
      }
    }
  }

  lemma {:induction false} FeedKeepsClean(p: Parser, text: string)
    requires CleanParser(p)
    ensures CleanParser(Feed(p, text))
    decreases |text|
  {
    if text != "" {
      if text[0] == '\n' {
        LineKeepsClean(p.(lineBuf := ""), p.lineBuf);
      }
      FeedKeepsClean(FeedChar(p, text[0]), text[1..]);
    }
  }

  /** No block so far has the key. */
  predicate Lacks(p: Parser, key: string) {
    (p.current.Some? ==> key !in p.current.value.fields) && forall b :: b in p.blocks ==> key !in b.fields
  }

  lemma FieldKeepsLack(p: Parser, f: Field, key: string)
    requires Lacks(p, key) && CleanField(f) && (f.key != key || IsControl(f))
    ensures Lacks(ProcessLine(p, FieldLine(f)), key)
  {
    ControlLine(f);
    if !IsControl(f) && p.current.Some? {
      FieldLineSets(p, f);
    }
  }

  lemma EndKeepsLack(p: Parser, key: string)
    requires Lacks(p, key)
    ensures Lacks(ProcessLine(p, END), key)
  {
    assert |START| > |END|;
  }

  lemma {:induction false} FieldsKeepLack(p: Parser, fields: seq<Field>, key: string)
    requires Lacks(p, key)
    requires forall f :: f in fields ==> CleanField(f) && (f.key != key || IsControl(f))
    ensures Lacks(ProcessLines(p, FieldLines(fields)), key)
    decreases |fields|
  {
    if fields != [] {
      FieldKeepsLack(p, fields[0], key);
      FieldsKeepLack(ProcessLine(p, FieldLine(fields[0])), fields[1..], key);
      ProcessFirstField(p, fields);
    }
  }

  lemma {:induction false} FieldMapHas(fields: seq<Field>, f: Field)
    requires DistinctKeys(fields) && f in fields
    ensures f.key in FieldMap(fields) && FieldMap(fields)[f.key] == f.value
  {
    var tail := fields[1..];
    if f in tail {
      assert DistinctKeys(tail);
      FieldMapHas(tail, f);
    } else {
      assert f == fields[0];
      if f.key in FieldMap(tail) {
        KeyOfField(tail, f.key);
        assert false;
      }
    }
  }

  lemma {:induction false} KeyOfField(fields: seq<Field>, key: string)
    requires key in FieldMap(fields)
    ensures exists i :: 0 <= i < |fields| && fields[i].key == key
  {
    if fields[0].key != key {
      KeyOfField(fields[1..], key);
      var i :| 0 <= i < |fields[1..]| && fields[1..][i].key == key;
      assert fields[i + 1].key == key;
    } else {
      assert fields[0].key == key;
    }
  }

  /** A printed block comes back as itself exactly when its type is one word, its
      keys and values are clean, and no field line reads as a control line. */
  lemma RoundTripIff(kind: string, fields: seq<Field>)
    requires DistinctKeys(fields)
    ensures Feed(IDLE, Printed(kind, fields)) == Parser("", None, [Block(kind, FieldMap(fields))]) <==> Printable(kind, fields)
  {
    if Printable(kind, fields) {
      PrintedParses(IDLE, kind, fields);
      assert [] + [Block(kind, FieldMap(fields))] == [Block(kind, FieldMap(fields))];
    }
    if Feed(IDLE, Printed(kind, fields)) == Parser("", None, [Block(kind, FieldMap(fields))]) {
      RoundTripIsPrintable(kind, fields);
    }
  }

  lemma ControlLosesKey(kind: string, fields: seq<Field>, f: Field)
    requires DistinctKeys(fields) && f in fields && IsControl(f)
    requires Word(kind) && forall g :: g in fields ==> CleanField(g)
    ensures Lacks(Feed(IDLE, Printed(kind, fields)), f.key)
  {
    PrintedIsLines(IDLE, kind, fields);
    StartLineParses(IDLE, kind);
    OnlyOneHasKey(fields, f);
    FieldsKeepLack(ProcessLine(IDLE, StartLine(kind)), fields, f.key);
    EndKeepsLack(ProcessLines(ProcessLine(IDLE, StartLine(kind)), FieldLines(fields)), f.key);
  }

  /** Three blocks with clean values that do not come back as printed. */
  lemma BlocksThatDoNotComeBack()
    ensures forall f :: f in [Field("=== END === later", "x"), Field(START_KEY, "x === y"), Field("__proto__", "x")] ==>
      Feed(IDLE, Printed("step", [f])) != Parser("", None, [Block("step", FieldMap([f]))])
  {
    forall f | f in [Field("=== END === later", "x"), Field(START_KEY, "x === y"), Field("__proto__", "x")]
      ensures Feed(IDLE, Printed("step", [f])) != Parser("", None, [Block("step", FieldMap([f]))])
    {
      MarkedWordIff("x === y", "x");
      assert "x" + START_TAIL == "x === y"[..5];
      assert END == "=== END === later"[..11];
      assert f in [f] && (IsControl(f) || !CleanField(f));
      RoundTripIff("step", [f]);
    }
  }

  lemma RoundTripIsPrintable(kind: string, fields: seq<Field>)
    requires DistinctKeys(fields)
    requires Feed(IDLE, Printed(kind, fields)) == Parser("", None, [Block(kind, FieldMap(fields))])
    ensures Printable(kind, fields)
  {
    var b := Block(kind, FieldMap(fields));
    FeedKeepsClean(IDLE, Printed(kind, fields));
    assert b in [b];
    forall f | f in fields ensures CleanField(f) {
      FieldMapHas(fields, f);
    }
    forall f | f in fields ensures !IsControl(f) {
      FieldMapHas(fields, f);
      if IsControl(f) {
        ControlLosesKey(kind, fields, f);
        assert false;
      }
    }
  }

  lemma OnlyOneHasKey(fields: seq<Field>, f: Field)
    requires DistinctKeys(fields) && f in fields
    ensures forall g :: g in fields && g.key == f.key ==> g == f
  {
  }
}
