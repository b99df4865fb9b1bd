/** The line parser of the audit-exception file. */
module AuditParser {
  import opened Rows

  // ---------------------------------------------------------------- Python string helpers

  /** `str.isspace` for one character. */
  predicate IsSpace(c: char) {
    || '\t' <= c <= '\r' || '\U{1c}' <= c <= ' ' || c == '\U{85}' || c == '\U{a0}' || c == '\U{1680}'
    || '\U{2000}' <= c <= '\U{200a}' || c == '\U{2028}' || c == '\U{2029}' || c == '\U{202f}'
    || c == '\U{205f}' || c == '\U{3000}'
  }

  /** Its characters, one by one. */
  lemma SpaceCharacters(c: char)
    ensures IsSpace(c)
            <==> c in ['\t', '\n', '\U{0b}', '\U{0c}', '\r', '\U{1c}', '\U{1d}', '\U{1e}', '\U{1f}', ' ', '\U{85}',
                       '\U{a0}', '\U{1680}', '\U{2000}', '\U{2001}', '\U{2002}', '\U{2003}', '\U{2004}',
                       '\U{2005}', '\U{2006}', '\U{2007}', '\U{2008}', '\U{2009}', '\U{200a}', '\U{2028}',
                       '\U{2029}', '\U{202f}', '\U{205f}', '\U{3000}']
  {}

  function LStrip(s: string): string {
    if s != [] && IsSpace(s[0]) then LStrip(s[1..]) else s
  }

  function RStrip(s: string): string {
    if s != [] && IsSpace(s[|s| - 1]) then RStrip(s[..|s| - 1]) else s
  }

  function Strip(s: string): string { RStrip(LStrip(s)) }

  /** The text before and after the first colon. */
  function SplitAtColon(s: string): Option<(string, string)> {
    if s == [] then None
    else if s[0] == ':' then Some(([], s[1..]))
    else match SplitAtColon(s[1..]) case None => None case Some((k, v)) => Some(([s[0]] + k, v))
  }

  function Unquote(v: string): string {
    if v != [] && v[0] == v[|v| - 1] && (v[0] == '"' || v[0] == '\'')
    then if |v| >= 2 then v[1..|v| - 1] else []
    else v
  }

  /** `split_kv`; None where unpacking raises, that is, when the line has no colon. */
  function SplitKv(line: string): Option<(string, string)> {
    match SplitAtColon(line)
    case None => None
    case Some((k, v)) => Some((Strip(k), Unquote(Strip(v))))
  }

  // ---------------------------------------------------------------- the lines of a file

  /** The characters that end a line when Python reads a text file; `\r\n` ends one line, not two. */
  predicate IsBreak(c: char) { c == '\n' || c == '\r' }

  predicate NoBreak(s: string) { forall n :: 0 <= n < |s| ==> !IsBreak(s[n]) }

  /** What a loop over an open text file yields: each line with its end as `\n`, the last one perhaps
      without. */
  function FileLines(text: string): seq<string> {
    if text == [] then []
    else if IsBreak(text[0]) then ["\n"] + FileLines(text[if "\r\n" <= text then 2 else 1..])
    else
      var rest := FileLines(text[1..]);
      if rest == [] then [[text[0]]] else [[text[0]] + rest[0]] + rest[1..]
  }

  /** Text up to a line end is one line, whatever follows. */
  lemma {:induction false} FirstLine(line: string, rest: string)
    requires NoBreak(line)
    ensures FileLines(line + "\n" + rest) == [line + "\n"] + FileLines(rest)
  {
    var text := line + "\n" + rest;
    if line == [] {
      assert text[0] == '\n' != "\r\n"[0] && text[1..] == rest && line + "\n" == "\n";
    } else {
      assert text[0] == line[0] && text[1..] == line[1..] + "\n" + rest;
      FirstLine(line[1..], rest);
      assert [line[0]] + (line[1..] + "\n") == line + "\n";
    }
  }

  /** A line of a file has no line break but its end. */
  predicate IsLine(line: string) { line != [] && NoBreak(line[..|line| - 1]) }

  lemma {:induction false} FileLinesAreLines(text: string)
    ensures forall n :: 0 <= n < |FileLines(text)| ==> IsLine(FileLines(text)[n])
  {
    if text != [] {
      FileLinesAreLines(if IsBreak(text[0]) then text[if "\r\n" <= text then 2 else 1..] else text[1..]);
    }
  }

  /** Universal newlines: what the text reads as, undivided. */
  function Universal(text: string): string {
    if text == [] then []
    else if "\r\n" <= text then "\n" + Universal(text[2..])
    else [if text[0] == '\r' then '\n' else text[0]] + Universal(text[1..])
  }

  function Join(lines: seq<string>): string { if lines == [] then [] else lines[0] + Join(lines[1..]) }

  /** The lines are the text cut after every line feed: together they are the text, and a line feed ends every line,
      save perhaps the last, and stands nowhere else. */
  lemma {:induction false} FileLinesExact(text: string)
    ensures Join(FileLines(text)) == Universal(text)
    ensures forall n :: 0 <= n < |FileLines(text)| ==> CutAfterFeed(FileLines(text)[n])
    ensures forall n :: 0 <= n < |FileLines(text)| - 1 ==> '\n' in FileLines(text)[n]
  {
    if text != [] {
      var rest := if IsBreak(text[0]) then text[if "\r\n" <= text then 2 else 1..] else text[1..];
      FileLinesExact(rest);
      if IsBreak(text[0]) {
        assert FileLines(text)[0] == "\n" && FileLines(text)[1..] == FileLines(rest);
      } else {
        CutAgain(text[0], FileLines(rest), Universal(rest));
      }
    }
  }

  ghost predicate CutAfterFeed(line: string) {
    line != [] && '\r' !in line && '\n' !in line[..|line| - 1]
  }

  lemma CutAgain(c: char, lines: seq<string>, text: string)
    requires c != '\n' && c != '\r' && Join(lines) == text
    requires forall n :: 0 <= n < |lines| ==> CutAfterFeed(lines[n])
    requires forall n :: 0 <= n < |lines| - 1 ==> '\n' in lines[n]
    ensures var all := if lines == [] then [[c]] else [[c] + lines[0]] + lines[1..];
            && Join(all) == [c] + text
            && (forall n :: 0 <= n < |all| ==> CutAfterFeed(all[n]))
            && (forall n :: 0 <= n < |all| - 1 ==> '\n' in all[n])
  {
    if lines == [] {
      assert [[c]][1..] == [] && [c] + [] == [c];
    } else {
      var head, all := [c] + lines[0], [[c] + lines[0]] + lines[1..];
      assert all[1..] == lines[1..];
      assert head[..|head| - 1] == [c] + lines[0][..|lines[0]| - 1];
      assert [c] + (lines[0] + Join(lines[1..])) == head + Join(lines[1..]);
      assert |lines| > 1 ==> '\n' in lines[0];
    }
  }

  // ---------------------------------------------------------------- the parser's state machine

  type Record = map<string, string>

  datatype State = State(finished: seq<Record>, current: Option<Record>)

  predicate Skipped(line: string) {
    line == [] || "#" <= line || "version:" <= line || "exceptions:" <= line
  }

  predicate IsItem(raw: string) { !Skipped(Strip(raw)) && "- " <= Strip(raw) }

  function ItemText(raw: string): string
    requires IsItem(raw)
  {
    Strip(Strip(raw)[2..])
  }

  /** An item line whose text has no colon makes the parser raise. */
  predicate BadItem(raw: string) { IsItem(raw) && ':' !in ItemText(raw) }

  /** `if current: exceptions.append(current)` */
  function Flush(st: State): seq<Record> {
    if st.current.Some? && st.current.value != map[] then st.finished + [st.current.value] else st.finished
  }

  function Step(st: State, raw: string): Option<State> {
    var line := Strip(raw);
    if Skipped(line) then Some(st)
    else if "- " <= line then
      var text := Strip(line[2..]);
      if text == [] then Some(State(Flush(st), Some(map[])))
      else match SplitKv(text)
           case None => None
           case Some((k, v)) => Some(State(Flush(st), Some(map[k := v])))
    else if st.current.Some? && ':' in line then
      match SplitKv(line)
      case None => None
      case Some((k, v)) => Some(st.(current := Some(st.current.value[k := v])))
    else Some(st)
  }

  function Steps(st: State, lines: seq<string>): Option<State>
    decreases lines
  {
    if lines == [] then Some(st)
    else match Step(st, lines[0]) case None => None case Some(next) => Steps(next, lines[1..])
  }

  function Parse(lines: seq<string>): Option<seq<Record>> {
    match Steps(State([], None), lines) case None => None case Some(st) => Some(Flush(st))
  }

  /** `parse_exceptions` over the lines of the file. */
  method ParseExceptions(lines: seq<string>) returns (r: Option<seq<Record>>)
    ensures r == Parse(lines)
  {
    var exceptions: seq<Record> := [];
    var current: Option<Record> := None;
    for n := 0 to |lines|
      invariant Steps(State(exceptions, current), lines[n..]) == Steps(State([], None), lines)
    {
      assert lines[n..][0] == lines[n] && lines[n..][1..] == lines[n + 1..];
      var line := Strip(lines[n]);
      if line == [] || "#" <= line || "version:" <= line || "exceptions:" <= line { continue; }
      if "- " <= line {
        if current.Some? && current.value != map[] { exceptions := exceptions + [current.value]; }
        current := Some(map[]);
        line := Strip(line[2..]);
        if line != [] {
          var kv := SplitKv(line);
          if kv.None? { return None; }
          current := Some(map[kv.value.0 := kv.value.1]);
        }
        continue;
      }
      if current.Some? && ':' in line {
        var kv := SplitKv(line);
        if kv.None? { return None; }
        current := Some(current.value[kv.value.0 := kv.value.1]);
      }
    }
    assert lines[|lines|..] == [];
    r := Some(if current.Some? && current.value != map[] then exceptions + [current.value] else exceptions);
  }

  // ---------------------------------------------------------------- an independent reading of the file

  /** The key line, if it is one: not skipped, not an item, with a colon. */
  function KeyLine(raw: string): Option<(string, string)> {
    var line := Strip(raw);
    if Skipped(line) || "- " <= line || ':' !in line then None else SplitKv(line)
  }

  function Write(record: Record, kv: Option<(string, string)>): Record {
    match kv case None => record case Some((k, v)) => record[k := v]
  }

  /** One record: the key lines up to the next item, the last write winning. */
  function Block(record: Record, lines: seq<string>): Record
    decreases lines
  {
    if lines == [] || IsItem(lines[0]) then record else Block(Write(record, KeyLine(lines[0])), lines[1..])
  }

  /** One record an item line; lines before the first item belong to none. */
  function RecordsOf(lines: seq<string>): seq<Record> {
    if lines == [] then []
    else if IsItem(lines[0])
    then [Block(Write(map[], SplitKv(ItemText(lines[0]))), lines[1..])] + RecordsOf(lines[1..])
    else RecordsOf(lines[1..])
  }

  function Items(lines: seq<string>): nat {
    if lines == [] then 0 else (if IsItem(lines[0]) then 1 else 0) + Items(lines[1..])
  }

  lemma {:induction false} SplitKvTotal(s: string)
    ensures SplitAtColon(s).Some? <==> ':' in s
    ensures SplitKv(s).Some? <==> ':' in s
  {
    if s != [] {
      assert s == [s[0]] + s[1..];
      SplitKvTotal(s[1..]);
    }
  }

  // ---------------------------------------------------------------- stripping

  lemma {:induction false} LStripEnds(s: string)
    ensures LStrip(s) == [] || !IsSpace(LStrip(s)[0])
    ensures s != [] && !IsSpace(s[|s| - 1]) ==> LStrip(s) != [] && LStrip(s)[|LStrip(s)| - 1] == s[|s| - 1]
  {
    if s != [] && IsSpace(s[0]) { LStripEnds(s[1..]); }
  }

  lemma {:induction false} RStripEnds(s: string)
    ensures RStrip(s) == [] || !IsSpace(RStrip(s)[|RStrip(s)| - 1])
    ensures RStrip(s) <= s
  {
    if s != [] && IsSpace(s[|s| - 1]) { RStripEnds(s[..|s| - 1]); }
  }

  /** A stripped string has no space at either end. */
  lemma StripEnds(s: string)
    ensures Strip(s) == [] || (!IsSpace(Strip(s)[0]) && !IsSpace(Strip(s)[|Strip(s)| - 1]))
  {
    LStripEnds(s);
    RStripEnds(LStrip(s));
  }

  lemma StripIdentity(s: string)
    requires s != [] && !IsSpace(s[0]) && !IsSpace(s[|s| - 1])
    ensures Strip(s) == s
  {}

  /** An item line always has text after the dash: the `if line` guard never fails. */
  lemma ItemHasText(raw: string)
    requires IsItem(raw)
    ensures ItemText(raw) != []
  {
    StripEnds(raw);
    var line := Strip(raw);
    assert line[1] == "- "[1];
    assert line[2..][|line[2..]| - 1] == line[|line| - 1];
    LStripEnds(line[2..]);
    var t := LStrip(line[2..]);
    assert RStrip(t) == t;
  }

  // ---------------------------------------------------------------- structure theorem

  lemma StepAtItem(st: State, raw: string)
    requires IsItem(raw)
    ensures Step(st, raw).None? <==> BadItem(raw)
    ensures Step(st, raw).Some? ==> Step(st, raw).value == State(Flush(st), Some(Write(map[], SplitKv(ItemText(raw)))))
  {
    ItemHasText(raw);
    SplitKvTotal(ItemText(raw));
  }

  lemma StepElsewhere(st: State, raw: string)
    requires !IsItem(raw)
    ensures Step(st, raw)
         == Some(State(st.finished, if st.current.None? then None else Some(Write(st.current.value, KeyLine(raw)))))
  {
    SplitKvTotal(Strip(raw));
  }

  lemma WriteNonEmpty(record: Record, kv: Option<(string, string)>)
    requires record != map[] || kv.Some?
    ensures Write(record, kv) != map[]
  {
    if kv.Some? {
      assert kv.value.0 in Write(record, kv);
    }
  }

  ghost predicate SomeBadItem(lines: seq<string>) { exists n :: 0 <= n < |lines| && BadItem(lines[n]) }

  lemma SomeBadItemStep(lines: seq<string>)
    requires lines != []
    ensures SomeBadItem(lines) <==> BadItem(lines[0]) || SomeBadItem(lines[1..])
  {
    if n :| 0 <= n < |lines| && BadItem(lines[n]) { if n > 0 { assert lines[n] == lines[1..][n - 1]; } }
    if n :| 0 <= n < |lines[1..]| && BadItem(lines[1..][n]) { assert lines[n + 1] == lines[1..][n]; }
  }

  /** The state machine refines the reading: no record is ever dropped by an `if current` guard. */
  lemma {:induction false} StepsAreBlocks(st: State, lines: seq<string>)
    requires st.current.Some? ==> st.current.value != map[]
    ensures Steps(st, lines).None? <==> SomeBadItem(lines)
    ensures Steps(st, lines).Some? ==> Flush(Steps(st, lines).value) == OpenRecord(st, lines) + RecordsOf(lines)
    decreases lines
  {
    hide IsItem, BadItem, ItemText, KeyLine, SplitKv, Step, Strip;
    if lines != [] {
      var raw := lines[0];
      SomeBadItemStep(lines);
      if IsItem(raw) {
        StepAtItem(st, raw);
        if !BadItem(raw) {
          SplitKvTotal(ItemText(raw));
          GoodItem(raw);
          WriteNonEmpty(map[], SplitKv(ItemText(raw)));
          StepsAreBlocks(Step(st, raw).value, lines[1..]);
        }
      } else {
        StepElsewhere(st, raw);
        NotBad(raw);
        if st.current.Some? { WriteNonEmpty(st.current.value, KeyLine(raw)); }
        StepsAreBlocks(Step(st, raw).value, lines[1..]);
      }
    }
  }

  /** The records closed so far and the one still open, read to its end. */
  ghost function OpenRecord(st: State, lines: seq<string>): seq<Record> {
    st.finished + (if st.current.Some? then [Block(st.current.value, lines)] else [])
  }

  lemma GoodItem(raw: string)
    requires IsItem(raw) && !BadItem(raw)
    ensures ':' in ItemText(raw)
  {}

  lemma NotBad(raw: string)
    requires !IsItem(raw)
    ensures !BadItem(raw)
  {}

  lemma {:induction false} RecordCount(lines: seq<string>)
    ensures |RecordsOf(lines)| == Items(lines)
  {
    if lines != [] { RecordCount(lines[1..]); }
  }

  /** For every file: the parser raises exactly when an item line has no colon; otherwise there is one
      record an item line, and each is the last-write-wins fold of its key lines. */
  lemma ParseStructure(lines: seq<string>)
    ensures Parse(lines).None? <==> SomeBadItem(lines)
    ensures Parse(lines).Some? ==> Parse(lines).value == RecordsOf(lines) && |RecordsOf(lines)| == Items(lines)
  {
    StepsAreBlocks(State([], None), lines);
    RecordCount(lines);
  }

  // ---------------------------------------------------------------- what a record holds

  /** The position of the next item line, or the end. */
  function BlockEnd(lines: seq<string>): nat
    ensures BlockEnd(lines) <= |lines|
  {
    if lines == [] || IsItem(lines[0]) then 0 else 1 + BlockEnd(lines[1..])
  }

  predicate WritesKey(raw: string, key: string) { KeyLine(raw).Some? && KeyLine(raw).value.0 == key }

  lemma {:induction false} UnwrittenKeyStays(record: Record, lines: seq<string>, key: string)
    requires forall m :: 0 <= m < BlockEnd(lines) ==> !WritesKey(lines[m], key)
    ensures key in Block(record, lines) <==> key in record
    ensures key in record ==> Block(record, lines)[key] == record[key]
    decreases lines
  {
    hide IsItem, KeyLine;
    if lines != [] && !IsItem(lines[0]) {
      assert forall m :: 0 <= m < BlockEnd(lines[1..]) ==> lines[1..][m] == lines[m + 1];
      UnwrittenKeyStays(Write(record, KeyLine(lines[0])), lines[1..], key);
    }
  }

  /** A field of a record comes from the last line of its block with that key. */
  lemma {:induction false} LastWriteWins(record: Record, lines: seq<string>, n: nat, key: string)
    requires n < BlockEnd(lines) && WritesKey(lines[n], key)
    requires forall m :: n < m < BlockEnd(lines) ==> !WritesKey(lines[m], key)
    ensures key in Block(record, lines) && Block(record, lines)[key] == KeyLine(lines[n]).value.1
    decreases lines
  {
    hide IsItem, KeyLine;
    var next := Write(record, KeyLine(lines[0]));
    assert forall m :: 0 <= m < BlockEnd(lines[1..]) ==> lines[1..][m] == lines[m + 1];
    if n == 0 {
      UnwrittenKeyStays(next, lines[1..], key);
    } else {
      assert lines[1..][n - 1] == lines[n];
      LastWriteWins(next, lines[1..], n - 1, key);
    }
  }
}
