/** Printing exception records in canonical form and parsing them back. */
module AuditPrint {
  import opened Rows
  import opened AuditParser

  /** How a value is written: as it is, or in quotes. */
  datatype Form = Bare | Single | Double

  datatype Pair = Pair(key: string, value: string, form: Form)

  function Shown(p: Pair): string {
    match p.form case Bare => p.value case Single => "'" + p.value + "'" case Double => "\"" + p.value + "\""
  }

  function KeyValueText(p: Pair): string { p.key + ": " + Shown(p) }

  function ItemLine(p: Pair): string { "- " + KeyValueText(p) }

  function LaterLine(p: Pair): string { "  " + KeyValueText(p) }

  /** Canonical form: the first pair on the item line, the others indented below it. */
  function PrintRecord(pairs: seq<Pair>): seq<string> {
    if pairs == [] then [] else [ItemLine(pairs[0])] + PrintRest(pairs[1..])
  }

  function PrintRest(pairs: seq<Pair>): seq<string> {
    if pairs == [] then [] else [LaterLine(pairs[0])] + PrintRest(pairs[1..])
  }

  function PrintAll(records: seq<seq<Pair>>): seq<string> {
    if records == [] then [] else PrintRecord(records[0]) + PrintAll(records[1..])
  }

  function ToMap(record: Record, pairs: seq<Pair>): Record
    decreases pairs
  {
    if pairs == [] then record else ToMap(record[pairs[0].key := pairs[0].value], pairs[1..])
  }

  function AllMaps(records: seq<seq<Pair>>): seq<Record> {
    if records == [] then [] else [ToMap(map[], records[0])] + AllMaps(records[1..])
  }

  /** A key any line can carry. */
  predicate PlainKey(k: string) { Strip(k) == k && ':' !in k }

  /** A key whose own line reads as the start of another record. */
  predicate DashKey(k: string) { "- " <= k }

  /** A key a line below the item can carry: not read as a comment, a header or an item. */
  predicate LaterKey(k: string) { !("#" <= k) && !DashKey(k) && k != "version" && k != "exceptions" }

  ghost predicate PlainRecord(record: seq<Pair>) {
    && record != []
    && (forall n :: 0 <= n < |record| ==> PlainKey(record[n].key))
    && (forall m, n :: 0 <= m < n < |record| ==> record[m].key != record[n].key)
  }

  ghost predicate LaterKeys(pairs: seq<Pair>) { forall n :: 0 <= n < |pairs| ==> LaterKey(pairs[n].key) }

  /** The pairs below the item line. */
  function Below(record: seq<Pair>): seq<Pair> { if record == [] then [] else record[1..] }

  /** A value that can stand without quotes: no space at its ends, and not the same quote at both. */
  predicate BareValue(v: string) {
    Strip(v) == v && (v == [] || v[0] != v[|v| - 1] || (v[0] != '"' && v[0] != '\''))
  }

  predicate Honest(p: Pair) { p.form.Bare? ==> BareValue(p.value) }

  ghost predicate AllHonest(pairs: seq<Pair>) { forall n :: 0 <= n < |pairs| ==> Honest(pairs[n]) }

  ghost predicate Printable(record: seq<Pair>) { LaterKeys(Below(record)) && AllHonest(record) }

  // ---------------------------------------------------------------- one line

  lemma {:induction false} SplitAfterKey(k: string, rest: string)
    requires ':' !in k
    ensures SplitAtColon(k + [':'] + rest) == Some((k, rest))
  {
    if k == [] {
      assert ([] + [':'] + rest)[1..] == rest;
    } else {
      SplitAfterKey(k[1..], rest);
      assert (k + [':'] + rest)[1..] == k[1..] + [':'] + rest;
      assert [k[0]] + k[1..] == k;
    }
  }

  /** Stripping on the right stops at a character that is no space. */
  lemma {:induction false} RStripAfter(a: string, b: string)
    requires a != [] && !IsSpace(a[|a| - 1])
    ensures RStrip(a + b) == a + RStrip(b)
    decreases |b|
  {
    if b == [] {
      assert a + b == a;
    } else if IsSpace(b[|b| - 1]) {
      assert (a + b)[..|a + b| - 1] == a + b[..|b| - 1];
      RStripAfter(a, b[..|b| - 1]);
    }
  }

  /** The value as it stands in the file, behind its key and colon. */
  function Tail(p: Pair): string { RStrip(" " + Shown(p)) }

  /** The line without the space at its ends. */
  function Trimmed(p: Pair): string { p.key + [':'] + Tail(p) }

  /** The value a line of this pair reads as. */
  function ReadValue(p: Pair): string { Unquote(Strip(Tail(p))) }

  lemma TrimmedStrips(p: Pair)
    requires PlainKey(p.key)
    ensures Strip(KeyValueText(p)) == Trimmed(p) == Strip(Trimmed(p)) && Trimmed(p) != []
  {
    var text, t, head := KeyValueText(p), Trimmed(p), p.key + [':'];
    assert text == head + (" " + Shown(p));
    RStripAfter(head, " " + Shown(p));
    StripEnds(p.key);
    RStripEnds(" " + Shown(p));
    assert text[0] == t[0] == if p.key == [] then ':' else p.key[0];
    assert t[|t| - 1] == if Tail(p) == [] then ':' else Tail(p)[|Tail(p)| - 1];
    StripIdentity(t);
  }

  lemma TrimmedSplits(p: Pair)
    requires PlainKey(p.key)
    ensures ':' in Trimmed(p) && SplitKv(Trimmed(p)) == Some((p.key, ReadValue(p)))
  {
    assert Trimmed(p)[|p.key|] == ':';
    SplitAfterKey(p.key, Tail(p));
  }

  lemma {:induction false} LStripPart(s: string)
    ensures |LStrip(s)| <= |s| && LStrip(s) == s[|s| - |LStrip(s)|..]
  {
    if s != [] && IsSpace(s[0]) { LStripPart(s[1..]); }
  }

  lemma QuotedReads(v: string, quote: char)
    requires quote == '"' || quote == '\''
    ensures Unquote(Strip(RStrip(" " + ([quote] + v + [quote])))) == v
  {
    var quoted := [quote] + v + [quote];
    StripIdentity(quoted);
    assert (" " + quoted)[1..] == quoted && (" " + quoted)[|quoted|] == quote;
    assert RStrip(" " + quoted) == " " + quoted && LStrip(" " + quoted) == LStrip(quoted);
    assert quoted[1..|quoted| - 1] == v;
  }

  lemma BareStays(v: string)
    requires BareValue(v)
    ensures Unquote(Strip(RStrip(" " + v))) == v
  {
    var line := " " + v;
    StripEnds(v);
    if v == [] {
      assert line[..0] == [] && RStrip(line) == [];
    } else {
      assert RStrip(line) == line && line[1..] == v;
      StripIdentity(v);
      assert LStrip(line) == LStrip(v);
    }
  }

  /** What is stripped is not longer, and has no space at its ends. */
  lemma StripShortens(s: string)
    ensures |Strip(s)| <= |s| && Strip(Strip(s)) == Strip(s)
  {
    LStripPart(s);
    RStripEnds(LStrip(s));
    StripEnds(s);
    if Strip(s) != [] { StripIdentity(Strip(s)); }
  }

  /** Without quotes a value reads as itself exactly when it has no space at its ends and is not quoted. */
  lemma BareReads(v: string)
    ensures Unquote(Strip(RStrip(" " + v))) == v <==> BareValue(v)
  {
    var tail := RStrip(" " + v);
    RStripEnds(" " + v);
    StripShortens(tail);
    if BareValue(v) { BareStays(v); }
    hide RStrip, LStrip;
  }

  /** What a pair's line reads as: a quoted value as itself, whatever it holds, and a bare one exactly when it can
      stand without quotes. */
  lemma ReadValueExact(p: Pair)
    ensures ReadValue(p) == p.value <==> Honest(p)
  {
    hide Strip, RStrip, Unquote, BareValue;
    match p.form {
      case Bare => BareReads(p.value);
      case Single => QuotedReads(p.value, '\''); assert Shown(p) == ['\''] + p.value + ['\''];
      case Double => QuotedReads(p.value, '"'); assert Shown(p) == ['"'] + p.value + ['"'];
    }
  }

  /** A lone quote reads as empty. */
  lemma LoneQuoteReads(p: Pair)
    requires p.form.Bare? && (p.value == "\"" || p.value == "'")
    ensures ReadValue(p) == ""
  {
    var line := " " + p.value;
    assert RStrip(line) == line && line[1..] == p.value;
    StripIdentity(p.value);
    assert LStrip(line) == LStrip(p.value);
  }

  /** A stripped line splits into its key and the value: in quotes of either kind exactly as printed, bare exactly
      when it can stand so, and a lone quote into nothing. */
  lemma KeyValueSplits(p: Pair)
    requires PlainKey(p.key)
    ensures SplitKv(Strip(KeyValueText(p))) == Some((p.key, ReadValue(p)))
    ensures SplitKv(Strip(KeyValueText(p))) == Some((p.key, p.value)) <==> Honest(p)
    ensures p.form.Bare? && (p.value == "\"" || p.value == "'") ==> SplitKv(Strip(KeyValueText(p))) == Some((p.key, ""))
  {
    TrimmedStrips(p);
    TrimmedSplits(p);
    ReadValueExact(p);
    if p.form.Bare? && (p.value == "\"" || p.value == "'") { LoneQuoteReads(p); }
    hide Strip, SplitKv, ReadValue, Honest, KeyValueText;
  }

  lemma ItemLineReads(p: Pair)
    requires PlainKey(p.key)
    ensures IsItem(ItemLine(p)) && !BadItem(ItemLine(p))
    ensures SplitKv(ItemText(ItemLine(p))) == Some((p.key, ReadValue(p)))
  {
    hide Tail, SplitKv, ReadValue, Strip, ItemLine;
    var t, raw := Trimmed(p), ItemLine(p);
    TrimmedStrips(p);
    TrimmedSplits(p);
    ItemLineStrips(p);
    assert ("- " + t)[..2] == "- " && ("- " + t)[2..] == t;
    assert ("- " + t)[0] == '-';
  }

  lemma ItemLineStrips(p: Pair)
    requires PlainKey(p.key)
    ensures Strip(ItemLine(p)) == "- " + Trimmed(p)
  {
    var raw, head := ItemLine(p), "- " + p.key + [':'];
    assert raw == head + (" " + Shown(p)) && raw[0] == '-';
    RStripAfter(head, " " + Shown(p));
    assert "- " + Trimmed(p) == head + Tail(p);
  }

  /** Which marks open the text: exactly the ones that open the key. */
  lemma MarkOpens(p: Pair, mark: string)
    requires mark == "#" || mark == "- "
    requires PlainKey(p.key)
    ensures mark <= Trimmed(p) <==> mark <= p.key
  {
    var text := Trimmed(p);
    assert text[|p.key|] == ':';
    if |p.key| >= |mark| { assert text[..|mark|] == p.key[..|mark|]; }
    if p.key == "-" { assert text[1] == ':'; }
    StripEnds(p.key);
  }

  lemma WordOpens(p: Pair, word: string)
    requires PlainKey(p.key) && ':' !in word
    ensures word + ":" <= Trimmed(p) <==> p.key == word
  {
    var text := Trimmed(p);
    assert text[|p.key|] == ':';
    if p.key == word {
      assert text[..|word| + 1] == word + ":";
    } else if |p.key| < |word| {
      assert word[|p.key|] in word;
    } else if |word| < |p.key| {
      assert text[|word|] == p.key[|word|] && p.key[|word|] in p.key;
    } else {
      assert text[..|word|] == p.key;
    }
  }

  lemma LaterLineStrips(p: Pair)
    requires PlainKey(p.key)
    ensures Strip(LaterLine(p)) == Trimmed(p)
  {
    var text := KeyValueText(p);
    TrimmedStrips(p);
    assert (" " + text)[1..] == text && LaterLine(p)[1..] == " " + text;
    assert LStrip(LaterLine(p)) == LStrip(text);
  }

  /** A later line starts a record, is dropped, or carries its pair, by its key alone. */
  lemma LaterLineReads(p: Pair)
    requires PlainKey(p.key)
    ensures IsItem(LaterLine(p)) <==> DashKey(p.key)
    ensures KeyLine(LaterLine(p)) == if LaterKey(p.key) then Some((p.key, ReadValue(p))) else None
  {
    hide Strip, SplitKv, Tail, ReadValue;
    LaterLineStrips(p);
    TrimmedStrips(p);
    TrimmedSplits(p);
    MarkOpens(p, "#");
    MarkOpens(p, "- ");
    WordOpens(p, "version");
    WordOpens(p, "exceptions");
    assert "version" + ":" == "version:" && "exceptions" + ":" == "exceptions:";
    assert DashKey(p.key) ==> p.key[0] == '-' && Trimmed(p)[0] == '-';
  }

  // ---------------------------------------------------------------- whole files

  lemma {:induction false} ItemsConcat(a: seq<string>, b: seq<string>)
    ensures Items(a + b) == Items(a) + Items(b)
  {
    if a == [] {
      assert a + b == b;
    } else {
      assert (a + b)[1..] == a[1..] + b;
      ItemsConcat(a[1..], b);
    }
  }

  ghost predicate PlainKeys(pairs: seq<Pair>) { forall n :: 0 <= n < |pairs| ==> PlainKey(pairs[n].key) }

  ghost predicate NoDash(pairs: seq<Pair>) { forall n :: 0 <= n < |pairs| ==> !DashKey(pairs[n].key) }

  /** The pair as its line reads. */
  function Read(p: Pair): Pair { p.(value := ReadValue(p)) }

  function Kept(pairs: seq<Pair>): seq<Pair> {
    if pairs == [] then [] else (if LaterKey(pairs[0].key) then [Read(pairs[0])] else []) + Kept(pairs[1..])
  }

  lemma {:induction false} RestItems(pairs: seq<Pair>)
    requires PlainKeys(pairs)
    ensures Items(PrintRest(pairs)) == 0 <==> NoDash(pairs)
  {
    if pairs != [] {
      LaterLineReads(pairs[0]);
      assert forall n :: 0 <= n < |pairs[1..]| ==> pairs[1..][n] == pairs[n + 1];
      RestItems(pairs[1..]);
    }
  }

  /** Without keys that look like items, exactly the later keys are read back. */
  lemma {:induction false} RestReads(record: Record, pairs: seq<Pair>, after: seq<string>)
    requires PlainKeys(pairs) && NoDash(pairs)
    requires after == [] || IsItem(after[0])
    ensures Block(record, PrintRest(pairs) + after) == ToMap(record, Kept(pairs))
    ensures RecordsOf(PrintRest(pairs) + after) == RecordsOf(after)
    ensures SomeBadItem(PrintRest(pairs) + after) ==> SomeBadItem(after)
    decreases pairs
  {
    hide IsItem, BadItem, KeyLine, DashKey, LaterKey, PlainKey, LaterLine, ReadValue;
    var lines := PrintRest(pairs) + after;
    if pairs == [] {
      assert lines == after;
    } else {
      var p := pairs[0];
      assert lines[0] == LaterLine(p) && lines[1..] == PrintRest(pairs[1..]) + after;
      LaterLineReads(p);
      NotBad(LaterLine(p));
      SomeBadItemStep(lines);
      assert Write(record, KeyLine(LaterLine(p))) == if LaterKey(p.key) then record[p.key := ReadValue(p)] else record;
      assert Kept(pairs)[if LaterKey(p.key) then 1 else 0..] == Kept(pairs[1..]);
      RestReads(Write(record, KeyLine(LaterLine(p))), pairs[1..], after);
    }
  }

  lemma StartsWithItem(records: seq<seq<Pair>>)
    requires forall n :: 0 <= n < |records| ==> PlainRecord(records[n])
    ensures PrintAll(records) == [] || IsItem(PrintAll(records)[0])
  {
    if records != [] {
      ItemLineReads(records[0][0]);
      assert PrintAll(records)[0] == ItemLine(records[0][0]);
    }
  }

  /** What the item line leaves in its record. */
  function Opened(p: Pair): Record { map[p.key := ReadValue(p)] }

  function AllKept(records: seq<seq<Pair>>): seq<Record> {
    if records == [] then []
    else [if records[0] == [] then map[] else ToMap(Opened(records[0][0]), Kept(records[0][1..]))]
         + AllKept(records[1..])
  }

  /** A printed file has at least its records, and no more exactly when no later key looks like an item. */
  lemma {:induction false} PrintedItems(records: seq<seq<Pair>>)
    requires forall n :: 0 <= n < |records| ==> PlainRecord(records[n])
    ensures Items(PrintAll(records)) >= |records|
    ensures Items(PrintAll(records)) == |records| <==> forall n :: 0 <= n < |records| ==> NoDash(Below(records[n]))
  {
    hide IsItem, BadItem, ItemText, SplitKv, PlainKey, NoDash, ItemLine;
    if records != [] {
      var r := records[0];
      ItemLineReads(r[0]);
      ItemsConcat(PrintRecord(r), PrintAll(records[1..]));
      assert PrintRecord(r)[1..] == PrintRest(r[1..]);
      RestItems(r[1..]);
      PrintedItems(records[1..]);
      assert forall n :: 0 <= n < |records[1..]| ==> records[1..][n] == records[n + 1];
    }
  }

  lemma RecordLines(record: seq<Pair>, after: seq<string>)
    requires record != []
    ensures var lines := PrintRecord(record) + after;
            lines != [] && lines[0] == ItemLine(record[0]) && lines[1..] == PrintRest(record[1..]) + after
  {
    hide ItemLine, LaterLine;
  }

  lemma PrintedRecordReads(record: seq<Pair>, after: seq<string>)
    requires PlainRecord(record) && NoDash(record[1..])
    requires after == [] || IsItem(after[0])
    ensures RecordsOf(PrintRecord(record) + after)
         == [ToMap(Opened(record[0]), Kept(record[1..]))] + RecordsOf(after)
    ensures SomeBadItem(PrintRecord(record) + after) ==> SomeBadItem(after)
  {
    hide IsItem, BadItem, ItemText, KeyLine, SplitKv, DashKey, LaterKey, PlainKey, Block, Kept, ToMap;
    hide PrintRecord, PrintRest, ItemLine;
    var p, lines := record[0], PrintRecord(record) + after;
    ItemLineReads(p);
    RecordLines(record, after);
    assert Write(map[], Some((p.key, ReadValue(p)))) == Opened(p);
    RestReads(Opened(p), record[1..], after);
    SomeBadItemStep(lines);
  }

  lemma {:induction false} PrintedReads(records: seq<seq<Pair>>)
    requires forall n :: 0 <= n < |records| ==> PlainRecord(records[n]) && NoDash(Below(records[n]))
    ensures RecordsOf(PrintAll(records)) == AllKept(records)
    ensures !SomeBadItem(PrintAll(records))
  {
    hide IsItem, BadItem, PrintRecord, NoDash, ToMap, Kept;
    if records != [] {
      assert forall n :: 0 <= n < |records[1..]| ==> records[1..][n] == records[n + 1];
      PrintedReads(records[1..]);
      StartsWithItem(records[1..]);
      PrintedRecordReads(records[0], PrintAll(records[1..]));
    }
  }

  // ---------------------------------------------------------------- what is lost without later keys

  lemma {:induction false} ToMapKeys(record: Record, pairs: seq<Pair>, key: string)
    ensures key in ToMap(record, pairs) <==> key in record || exists n :: 0 <= n < |pairs| && pairs[n].key == key
    decreases pairs
  {
    if pairs != [] {
      ToMapKeys(record[pairs[0].key := pairs[0].value], pairs[1..], key);
      if n :| 0 <= n < |pairs| && pairs[n].key == key { if n > 0 { assert pairs[1..][n - 1].key == key; } }
      if n :| 0 <= n < |pairs[1..]| && pairs[1..][n].key == key { assert pairs[n + 1].key == key; }
    }
  }

  lemma {:induction false} KeptKeys(pairs: seq<Pair>)
    ensures forall n :: 0 <= n < |Kept(pairs)| ==> LaterKey(Kept(pairs)[n].key)
    ensures LaterKeys(pairs) ==>
              |Kept(pairs)| == |pairs| && forall n :: 0 <= n < |pairs| ==> Kept(pairs)[n] == Read(pairs[n])
  {
    hide LaterKey, Read;
    if pairs != [] {
      ReadKeepsKey(pairs[0]);
      KeptKeys(pairs[1..]);
      assert forall n :: 0 <= n < |pairs[1..]| ==> pairs[1..][n] == pairs[n + 1];
    }
  }

  lemma ReadKeepsKey(p: Pair)
    ensures Read(p).key == p.key && Read(p).value == ReadValue(p)
    ensures Read(p) == p <==> Honest(p)
    ensures Read(p).value == p.value <==> Honest(p)
  {
    ReadValueExact(p);
    hide ReadValue, Honest;
  }

  /** A record of distinct keys survives exactly when every key below the item is a later key and no value stands
      bare that cannot. */
  lemma KeptIsAll(record: seq<Pair>)
    requires PlainRecord(record)
    ensures ToMap(Opened(record[0]), Kept(record[1..])) == ToMap(map[], record) <==> Printable(record)
  {
    hide ReadValue, Honest, PlainKey, LaterKey, Kept;
    var start, rest, first := Opened(record[0]), record[1..], map[record[0].key := record[0].value];
    assert map[][record[0].key := record[0].value] == first && ToMap(map[], record) == ToMap(first, rest);
    KeptKeys(rest);
    if n :| 0 <= n < |rest| && !LaterKey(rest[n].key) {
      var key := rest[n].key;
      assert record[n + 1].key == key;
      ToMapKeys(start, Kept(rest), key);
      ToMapKeys(first, rest, key);
      assert key in ToMap(first, rest) && key !in ToMap(start, Kept(rest));
    } else {
      AllRead(record);
    }
  }

  lemma AllRead(record: seq<Pair>)
    requires PlainRecord(record) && LaterKeys(record[1..])
    ensures ToMap(Opened(record[0]), Kept(record[1..])) == ToMap(map[], record) <==> AllHonest(record)
  {
    hide ReadValue, Honest, PlainKey, LaterKey, Kept, Read, ToMap;
    var read := [Read(record[0])] + Kept(record[1..]);
    KeptKeys(record[1..]);
    ToMapOpens(record[0], Kept(record[1..]));
    forall n | 0 <= n < |record|
      ensures read[n] == Read(record[n]) && (read[n] == record[n] <==> Honest(record[n]))
    {
      ReadKeepsKey(record[n]);
    }
    forall n | 0 <= n < |record| ensures read[n].key == record[n].key { ReadKeepsKey(record[n]); }
    if n :| 0 <= n < |record| && !Honest(record[n]) {
      ReadKeepsKey(record[n]);
      ToMapHolds(map[], read, n);
      ToMapHolds(map[], record, n);
    } else {
      assert read == record;
    }
  }

  lemma ToMapOpens(p: Pair, kept: seq<Pair>)
    ensures ToMap(map[], [Read(p)] + kept) == ToMap(Opened(p), kept)
  {
    assert ([Read(p)] + kept)[1..] == kept && map[][p.key := ReadValue(p)] == Opened(p);
  }

  lemma {:induction false} AllKeptIsAll(records: seq<seq<Pair>>)
    requires forall n :: 0 <= n < |records| ==> PlainRecord(records[n])
    ensures AllKept(records) == AllMaps(records) <==> forall n :: 0 <= n < |records| ==> Printable(records[n])
  {
    hide Kept, ToMap, LaterKeys, Opened, Printable;
    if records != [] {
      assert forall n :: 0 <= n < |records[1..]| ==> records[1..][n] == records[n + 1];
      AllKeptIsAll(records[1..]);
      KeptIsAll(records[0]);
      assert AllKept(records)[1..] == AllKept(records[1..]) && AllMaps(records)[1..] == AllMaps(records[1..]);
      assert AllKept(records) == AllMaps(records)
          <==> AllKept(records)[0] == AllMaps(records)[0] && AllKept(records)[1..] == AllMaps(records)[1..] by {
        assert AllKept(records) == [AllKept(records)[0]] + AllKept(records)[1..];
        assert AllMaps(records) == [AllMaps(records)[0]] + AllMaps(records)[1..];
      }
    }
  }

  lemma {:induction false} AllMapsLength(records: seq<seq<Pair>>)
    ensures |AllMaps(records)| == |records|
  {
    if records != [] { AllMapsLength(records[1..]); }
  }

  lemma LaterKeysNoDash(pairs: seq<Pair>)
    requires LaterKeys(pairs)
    ensures NoDash(pairs)
  {}

  lemma AllNoDash(records: seq<seq<Pair>>)
    requires forall n :: 0 <= n < |records| ==> Printable(records[n])
    ensures forall n :: 0 <= n < |records| ==> NoDash(Below(records[n]))
  {
    forall n | 0 <= n < |records| ensures NoDash(Below(records[n])) {
      assert Printable(records[n]);
      LaterKeysNoDash(Below(records[n]));
    }
  }

  /** On the printed lines themselves, before they become a file. */
  lemma LinesRoundTrip(records: seq<seq<Pair>>)
    requires forall n :: 0 <= n < |records| ==> PlainRecord(records[n])
    ensures Parse(PrintAll(records)) == Some(AllMaps(records))
            <==> forall n :: 0 <= n < |records| ==> Printable(records[n])
  {
    hide *;
    ParseStructure(PrintAll(records));
    PrintedItems(records);
    AllMapsLength(records);
    AllKeptIsAll(records);
    if forall n :: 0 <= n < |records| ==> Printable(records[n]) { AllNoDash(records); }
    if forall n :: 0 <= n < |records| ==> NoDash(Below(records[n])) { PrintedReads(records); }
  }

  // ---------------------------------------------------------------- as a file

  /** The file's text: every printed line ended by a line feed. */
  function FileText(lines: seq<string>): string {
    if lines == [] then [] else lines[0] + "\n" + FileText(lines[1..])
  }

  function PrintText(records: seq<seq<Pair>>): string { FileText(PrintAll(records)) }

  predicate Unbroken(pairs: seq<Pair>) {
    forall n :: 0 <= n < |pairs| ==> NoBreak(pairs[n].key) && NoBreak(pairs[n].value)
  }

  lemma {:induction false} UnbrokenLines(pairs: seq<Pair>)
    requires Unbroken(pairs)
    ensures forall n :: 0 <= n < |PrintRest(pairs)| ==> NoBreak(PrintRest(pairs)[n])
    ensures forall n :: 0 <= n < |PrintRecord(pairs)| ==> NoBreak(PrintRecord(pairs)[n])
  {
    hide ItemLine, LaterLine, NoBreak;
    if pairs != [] {
      LineUnbroken(pairs[0]);
      UnbrokenLines(pairs[1..]);
    }
  }

  lemma LineUnbroken(p: Pair)
    requires NoBreak(p.key) && NoBreak(p.value)
    ensures NoBreak(ItemLine(p)) && NoBreak(LaterLine(p))
  {
    assert NoBreak(": ") && NoBreak("'") && NoBreak("\"") && NoBreak("- ") && NoBreak("  ");
    hide NoBreak;
    NoBreakConcat("'", p.value);
    NoBreakConcat("'" + p.value, "'");
    NoBreakConcat("\"", p.value);
    NoBreakConcat("\"" + p.value, "\"");
    NoBreakConcat(p.key, ": ");
    NoBreakConcat(p.key + ": ", Shown(p));
    NoBreakConcat("- ", KeyValueText(p));
    NoBreakConcat("  ", KeyValueText(p));
  }

  lemma NoBreakConcat(a: string, b: string)
    requires NoBreak(a) && NoBreak(b)
    ensures NoBreak(a + b)
  {}

  lemma {:induction false} UnbrokenPrint(records: seq<seq<Pair>>)
    requires forall n :: 0 <= n < |records| ==> Unbroken(records[n])
    ensures forall n :: 0 <= n < |PrintAll(records)| ==> NoBreak(PrintAll(records)[n])
  {
    hide PrintRecord, Unbroken, NoBreak;
    if records != [] {
      UnbrokenLines(records[0]);
      UnbrokenPrint(records[1..]);
    }
  }

  lemma EndIsStripped(line: string, c: char)
    requires IsSpace(c)
    ensures Strip(line + [c]) == Strip(line)
  {
    LStripEnd(line, c);
    if LStrip(line) != [] { assert (LStrip(line) + [c])[..|LStrip(line)|] == LStrip(line); }
  }

  lemma {:induction false} LStripEnd(line: string, c: char)
    requires IsSpace(c)
    ensures LStrip(line + [c]) == if LStrip(line) == [] then [] else LStrip(line) + [c]
  {
    if line == [] {
      assert line + [c] == [c] && [c][1..] == [];
    } else {
      assert (line + [c])[0] == line[0] && (line + [c])[1..] == line[1..] + [c];
      LStripEnd(line[1..], c);
    }
  }

  /** Spaces, tabs and line ends around a line make no difference to how it reads; visible characters do. */
  lemma MarginsAreIrrelevant(st: State, before: string, line: string, after: string)
    requires forall c :: c in before + after ==> c == ' ' || '\t' <= c <= '\r'
    ensures Step(st, before + line + after) == Step(st, line)
    ensures line != [] && '!' <= line[0] <= '~' && '!' <= line[|line| - 1] <= '~' ==> Strip(line) == line
  {
    assert forall c :: c in before ==> c in before + after;
    assert forall c :: c in after ==> c in before + after;
    BeforeIsStripped(before, line + after);
    AfterIsStripped(line, after);
    assert before + line + after == before + (line + after);
    if line != [] && '!' <= line[0] <= '~' && '!' <= line[|line| - 1] <= '~' { StripIdentity(line); }
    hide Strip, SplitKv;
  }

  lemma {:induction false} BeforeIsStripped(before: string, line: string)
    requires forall c :: c in before ==> IsSpace(c)
    ensures Strip(before + line) == Strip(line)
  {
    if before == [] {
      assert before + line == line;
    } else {
      assert before[0] in before;
      assert (before + line)[1..] == before[1..] + line;
      BeforeIsStripped(before[1..], line);
    }
  }

  lemma {:induction false} AfterIsStripped(line: string, after: string)
    requires forall c :: c in after ==> IsSpace(c)
    ensures Strip(line + after) == Strip(line)
    decreases after
  {
    if after == [] {
      assert line + after == line;
    } else {
      assert after[0] in after;
      assert line + after == line + [after[0]] + after[1..];
      AfterIsStripped(line + [after[0]], after[1..]);
      EndIsStripped(line, after[0]);
    }
  }

  /** Reading a file of break-free lines takes the same steps as reading the lines. */
  lemma {:induction false} FileReadsAsLines(st: State, lines: seq<string>)
    requires forall n :: 0 <= n < |lines| ==> NoBreak(lines[n])
    ensures Steps(st, FileLines(FileText(lines))) == Steps(st, lines)
    decreases lines
  {
    hide Step;
    if lines != [] {
      FirstLine(lines[0], FileText(lines[1..]));
      SameStep(st, lines[0]);
      assert FileLines(FileText(lines))[1..] == FileLines(FileText(lines[1..]));
      if Step(st, lines[0]).Some? { FileReadsAsLines(Step(st, lines[0]).value, lines[1..]); }
    }
  }

  lemma SameStep(st: State, line: string)
    ensures Step(st, line + "\n") == Step(st, line)
  {
    hide Strip, SplitKv;
    EndIsStripped(line, '\n');
  }

  // ---------------------------------------------------------------- what no line of a file can hold

  ghost predicate Part(a: string, b: string) { forall c :: c in a ==> c in b }

  lemma StripPart(s: string)
    ensures Part(Strip(s), s)
  {
    LStripPart(s);
    RStripEnds(LStrip(s));
    assert forall c :: c in LStrip(s) ==> c in s;
  }

  /** Stripping a line of a file drops its end. */
  lemma StripUnbreaks(line: string)
    requires IsLine(line)
    ensures NoBreak(Strip(line))
  {
    hide LStrip, RStrip;
    var t := LStrip(line);
    var s := RStrip(t);
    LStripPart(line);
    RStripEnds(t);
    forall n | 0 <= n < |s| ensures !IsBreak(s[n]) {
      if n < |t| - 1 { assert s[n] == line[..|line| - 1][|line| - |t| + n]; }
    }
  }

  lemma {:induction false} SplitPart(s: string)
    ensures SplitAtColon(s).Some? ==> Part(SplitAtColon(s).value.0, s) && Part(SplitAtColon(s).value.1, s)
  {
    if s != [] && s[0] != ':' { SplitPart(s[1..]); }
  }

  lemma SplitKvUnbroken(s: string)
    requires NoBreak(s) && SplitKv(s).Some?
    ensures NoBreak(SplitKv(s).value.0) && NoBreak(SplitKv(s).value.1)
  {
    var (k, v) := SplitAtColon(s).value;
    SplitPart(s);
    StripPart(k);
    StripPart(v);
    assert Part(Strip(k), s) && Part(Strip(v), s);
    assert Part(Unquote(Strip(v)), Strip(v));
    hide Strip, Unquote;
    assert forall c :: c in s ==> !IsBreak(c);
  }

  ghost predicate UnbrokenRecord(record: Record) {
    forall k :: k in record ==> NoBreak(k) && NoBreak(record[k])
  }

  ghost predicate AllLines(lines: seq<string>) { forall n :: 0 <= n < |lines| ==> IsLine(lines[n]) }

  lemma KeyLineUnbroken(raw: string)
    requires IsLine(raw)
    ensures KeyLine(raw).Some? ==> NoBreak(KeyLine(raw).value.0) && NoBreak(KeyLine(raw).value.1)
  {
    hide Strip, SplitKv;
    StripUnbreaks(raw);
    if KeyLine(raw).Some? { SplitKvUnbroken(Strip(raw)); }
  }

  lemma ItemUnbroken(raw: string)
    requires IsLine(raw) && IsItem(raw) && SplitKv(ItemText(raw)).Some?
    ensures NoBreak(SplitKv(ItemText(raw)).value.0) && NoBreak(SplitKv(ItemText(raw)).value.1)
  {
    hide Strip, SplitKv;
    StripUnbreaks(raw);
    StripPart(Strip(raw)[2..]);
    assert forall c :: c in Strip(raw)[2..] ==> !IsBreak(c);
    SplitKvUnbroken(ItemText(raw));
  }

  lemma {:induction false} BlockUnbroken(record: Record, lines: seq<string>)
    requires UnbrokenRecord(record) && AllLines(lines)
    ensures UnbrokenRecord(Block(record, lines))
    decreases lines
  {
    hide IsItem, KeyLine, NoBreak, IsLine;
    if lines != [] && !IsItem(lines[0]) {
      KeyLineUnbroken(lines[0]);
      BlockUnbroken(Write(record, KeyLine(lines[0])), lines[1..]);
    }
  }

  /** No record read from a file has a line break in a key or a value. */
  lemma {:induction false} RecordsUnbroken(lines: seq<string>)
    requires AllLines(lines)
    ensures forall n :: 0 <= n < |RecordsOf(lines)| ==> UnbrokenRecord(RecordsOf(lines)[n])
  {
    hide IsItem, ItemText, SplitKv, Block, NoBreak, IsLine;
    if lines != [] {
      RecordsUnbroken(lines[1..]);
      if IsItem(lines[0]) {
        var kv := SplitKv(ItemText(lines[0]));
        if kv.Some? { ItemUnbroken(lines[0]); }
        assert UnbrokenRecord(Write(map[], kv));
        BlockUnbroken(Write(map[], kv), lines[1..]);
      }
    }
  }

  lemma {:induction false} ToMapHolds(record: Record, pairs: seq<Pair>, n: nat)
    requires n < |pairs| && forall i, j :: 0 <= i < j < |pairs| ==> pairs[i].key != pairs[j].key
    ensures pairs[n].key in ToMap(record, pairs) && ToMap(record, pairs)[pairs[n].key] == pairs[n].value
    decreases pairs
  {
    var next := record[pairs[0].key := pairs[0].value];
    if n == 0 {
      ToMapKeeps(next, pairs[1..], pairs[0].key);
    } else {
      ToMapHolds(next, pairs[1..], n - 1);
    }
  }

  lemma {:induction false} ToMapKeeps(record: Record, pairs: seq<Pair>, key: string)
    requires key in record && forall n :: 0 <= n < |pairs| ==> pairs[n].key != key
    ensures key in ToMap(record, pairs) && ToMap(record, pairs)[key] == record[key]
    decreases pairs
  {
    if pairs != [] { ToMapKeeps(record[pairs[0].key := pairs[0].value], pairs[1..], key); }
  }

  lemma {:induction false} AllMapsAt(records: seq<seq<Pair>>, n: nat)
    requires n < |records|
    ensures n < |AllMaps(records)| && AllMaps(records)[n] == ToMap(map[], records[n])
  {
    if n > 0 { AllMapsAt(records[1..], n - 1); }
  }

  /** Whatever a file holds, no key or value parsed from it has a line break in it. */
  lemma ParsedUnbroken(text: string)
    ensures Parse(FileLines(text)).Some? ==>
              forall n :: 0 <= n < |Parse(FileLines(text)).value| ==> UnbrokenRecord(Parse(FileLines(text)).value[n])
  {
    hide Parse, RecordsOf, FileLines, UnbrokenRecord, IsLine;
    ParseStructure(FileLines(text));
    FileLinesAreLines(text);
    RecordsUnbroken(FileLines(text));
  }

  /** Records that are read back from a file had no line break in them. */
  lemma ReadBackUnbroken(records: seq<seq<Pair>>, text: string)
    requires forall n :: 0 <= n < |records| ==> PlainRecord(records[n])
    requires Parse(FileLines(text)) == Some(AllMaps(records))
    ensures forall n :: 0 <= n < |records| ==> Unbroken(records[n])
  {
    hide AllMaps, ToMap, PlainKey, RecordsOf, Parse, IsLine, NoBreak, FileLines;
    ParsedUnbroken(text);
    forall n | 0 <= n < |records| ensures Unbroken(records[n]) {
      AllMapsAt(records, n);
      assert UnbrokenRecord(ToMap(map[], records[n]));
      forall i | 0 <= i < |records[n]| { ToMapHolds(map[], records[n], i); }
    }
  }

  /** Printing any records of distinct plain keys to a file, each value bare or in quotes of either kind, and parsing
      the file gives them back, whatever the values hold (colons, inner quotes, spaces at the edges), exactly when
      no key or value has a line break, every key below an item line is one that is not read as a comment, a header
      or an item, and no value stands bare that has a space at an end or the same quote at both. */
  lemma RoundTrip(records: seq<seq<Pair>>)
    requires forall n :: 0 <= n < |records| ==> PlainRecord(records[n])
    ensures Parse(FileLines(PrintText(records))) == Some(AllMaps(records))
            <==> forall n :: 0 <= n < |records| ==> Printable(records[n]) && Unbroken(records[n])
  {
    hide PlainRecord, Printable, Unbroken, AllMaps, PrintAll, Steps, FileLines, FileText, Flush;
    if Parse(FileLines(PrintText(records))) == Some(AllMaps(records)) {
      ReadBackUnbroken(records, PrintText(records));
    }
    if forall n :: 0 <= n < |records| ==> Unbroken(records[n]) {
      UnbrokenPrint(records);
      FileReadsAsLines(State([], None), PrintAll(records));
      LinesRoundTrip(records);
    }
  }
}
