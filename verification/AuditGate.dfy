/** The gate: which exception files and audit findings end in exit code 0. */
module AuditGate {
  import opened Rows
  import opened AuditParser
  import opened AuditVulns

  const HIGH_SEVERITIES: set<string> := {"high", "critical"}
  const REQUIRED_FIELDS: set<string> := {"package", "advisory", "severity", "mitigation", "expires_on"}

  /** What the script takes from Python: `str.lower`, `date.fromisoformat`, `date.today`, and `str` on JSON values. */
  datatype Host = Host(lower: string -> string, parseDate: string -> Option<int>, today: int, show: Json -> string)

  datatype Key = Key(package: string, advisory: string)

  datatype Entry = Entry(severity: string, expiresOn: int)

  datatype Problem =
    | MissingFields | InvalidDate | BlankKey | DuplicateKey(key: Key)
    | NoAdvisory | SeverityMismatch(key: Key) | Uncovered(key: Key) | Expired(key: Key)

  function OrEmpty(s: Option<string>): string { if s.Some? then s.value else "" }

  function NormalizeSeverity(h: Host, s: Option<string>): string { h.lower(Strip(OrEmpty(s))) }

  function NormalizeAdvisory(h: Host, s: Option<string>): string {
    if s.None? then "" else h.lower(Strip(s.value))
  }

  function NormalizePackage(s: Option<string>): string { Strip(OrEmpty(s)) }

  // ---------------------------------------------------------------- what acceptance means

  /** Every required field is there and not empty. */
  predicate Complete(exc: Record) { forall f :: f in REQUIRED_FIELDS ==> f in exc && exc[f] != "" }

  function Field(exc: Record, f: string): Option<string> { if f in exc then Some(exc[f]) else None }

  function KeyOf(h: Host, exc: Record): Key {
    Key(NormalizePackage(Field(exc, "package")), NormalizeAdvisory(h, Field(exc, "advisory")))
  }

  function DateOf(h: Host, exc: Record): Option<int> { h.parseDate(OrEmpty(Field(exc, "expires_on"))) }

  /** An exception the index takes: complete, with a date and a key that is not blank. */
  predicate Sound(h: Host, exc: Record) {
    Complete(exc) && DateOf(h, exc).Some? && !Blank(KeyOf(h, exc).package) && !Blank(KeyOf(h, exc).advisory)
  }

  predicate HasKey(h: Host, exc: Record, key: Key) { Sound(h, exc) && KeyOf(h, exc) == key }

  function EntryOf(h: Host, exc: Record): Entry
    requires Sound(h, exc)
  {
    Entry(NormalizeSeverity(h, Field(exc, "severity")), DateOf(h, exc).value)
  }

  ghost predicate ExceptionsHold(h: Host, excs: seq<Record>) {
    && (forall n :: 0 <= n < |excs| ==> Sound(h, excs[n]))
    && (forall m, n :: 0 <= m < n < |excs| ==> KeyOf(h, excs[m]) != KeyOf(h, excs[n]))
  }

  function TextOf(s: Severity): Option<string> { if s.Said? then Some(s.text) else None }

  function SeverityOf(h: Host, f: Finding): string { NormalizeSeverity(h, TextOf(f.severity)) }

  /** A finding whose severity has no `strip`: the script raises when it comes to it. */
  ghost predicate SomeNotText(fs: seq<Finding>) { exists n :: 0 <= n < |fs| && fs[n].severity.NotText? }

  /** A finding the gate looks at. */
  predicate Relevant(h: Host, f: Finding) { IsHigh(SeverityOf(h, f)) && f.name.Some? }

  predicate IsHigh(severity: string) { severity in HIGH_SEVERITIES }

  predicate Blank(s: string) { s == "" }

  function FindingKey(h: Host, f: Finding): Key { Key(NormalizePackage(f.name), NormalizeAdvisory(h, f.advisory)) }

  predicate Named(h: Host, f: Finding) { !Blank(FindingKey(h, f).advisory) }

  /** The exception is unexpired, and its severity is blank or the finding's. */
  predicate Permits(h: Host, e: Entry, f: Finding) {
    (Blank(e.severity) || e.severity == SeverityOf(h, f)) && e.expiresOn >= h.today
  }

  ghost predicate Covered(h: Host, excs: seq<Record>, f: Finding) {
    exists e :: 0 <= e < |excs| && HasKey(h, excs[e], FindingKey(h, f)) && Permits(h, EntryOf(h, excs[e]), f)
  }

  /** No earlier finding the gate looks at has the same key. */
  ghost predicate FirstOfKey(h: Host, fs: seq<Finding>, n: nat)
    requires n < |fs|
  {
    forall m :: 0 <= m < n && Relevant(h, fs[m]) ==> FindingKey(h, fs[m]) != FindingKey(h, fs[n])
  }

  ghost predicate FindingsHold(h: Host, excs: seq<Record>, fs: seq<Finding>) {
    forall n :: 0 <= n < |fs| && Relevant(h, fs[n]) ==>
                  Named(h, fs[n]) && (FirstOfKey(h, fs, n) ==> Covered(h, excs, fs[n]))
  }

  ghost predicate Accepts(h: Host, excs: seq<Record>, fs: seq<Finding>) {
    ExceptionsHold(h, excs) && FindingsHold(h, excs, fs)
  }

  // ---------------------------------------------------------------- the code

  /** The exception whose entry the index keeps for a key: the first sound one. */
  function Lookup(h: Host, excs: seq<Record>, key: Key): (r: Option<Record>)
    ensures r.Some? ==> HasKey(h, r.value, key)
  {
    if excs == [] then None
    else
      var earlier := Lookup(h, excs[..|excs| - 1], key);
      if earlier.Some? then earlier
      else if HasKey(h, excs[|excs| - 1], key) then Some(excs[|excs| - 1]) else None
  }

  ghost predicate IsIndex(h: Host, excs: seq<Record>, index: map<Key, Entry>) {
    && (forall key :: key in index <==> Lookup(h, excs, key).Some?)
    && (forall key :: key in index ==> index[key] == EntryOf(h, Lookup(h, excs, key).value))
  }

  lemma {:induction false} LookupNone(h: Host, excs: seq<Record>, key: Key)
    ensures Lookup(h, excs, key).None? <==> forall n :: 0 <= n < |excs| ==> !HasKey(h, excs[n], key)
  {
    hide HasKey;
    if excs != [] {
      var front := excs[..|excs| - 1];
      LookupNone(h, front, key);
      assert forall n :: 0 <= n < |front| ==> front[n] == excs[n];
    }
  }

  lemma {:induction false} LookupUnique(h: Host, excs: seq<Record>, n: nat)
    requires ExceptionsHold(h, excs) && n < |excs|
    ensures Lookup(h, excs, KeyOf(h, excs[n])) == Some(excs[n])
  {
    var front, key := excs[..|excs| - 1], KeyOf(h, excs[n]);
    LookupNone(h, front, key);
    if n < |excs| - 1 { LookupUnique(h, front, n); }
  }

  /** One more exception keeps the list sound when it is sound and its key is new. */
  lemma ExceptionsStep(h: Host, excs: seq<Record>, exc: Record)
    ensures ExceptionsHold(h, excs + [exc])
            <==> ExceptionsHold(h, excs) && Sound(h, exc) && Lookup(h, excs, KeyOf(h, exc)).None?
  {
    hide Sound, KeyOf;
    var all := excs + [exc];
    LookupNone(h, excs, KeyOf(h, exc));
    assert all[|excs|] == exc && forall n :: 0 <= n < |excs| ==> all[n] == excs[n];
  }

  lemma LookupStep(h: Host, excs: seq<Record>, exc: Record, key: Key)
    ensures Lookup(h, excs + [exc], key)
         == if Lookup(h, excs, key).Some? then Lookup(h, excs, key) else if HasKey(h, exc, key) then Some(exc) else None
  {
    assert (excs + [exc])[..|excs|] == excs;
  }

  /** One more exception: indexed if it is sound and its key is new, and only then no problem. */
  lemma IndexStep(h: Host, excs: seq<Record>, exc: Record, index: map<Key, Entry>)
    requires IsIndex(h, excs, index)
    ensures Sound(h, exc) && KeyOf(h, exc) !in index ==>
            IsIndex(h, excs + [exc], index[KeyOf(h, exc) := EntryOf(h, exc)])
    ensures !(Sound(h, exc) && KeyOf(h, exc) !in index) ==> IsIndex(h, excs + [exc], index)
    ensures ExceptionsHold(h, excs + [exc]) <==> ExceptionsHold(h, excs) && Sound(h, exc) && KeyOf(h, exc) !in index
  {
    hide ExceptionsHold, Lookup, KeyOf, EntryOf, Sound;
    ExceptionsStep(h, excs, exc);
    forall key { LookupStep(h, excs, exc, key); }
  }

  /** The first reason, if any, not to index an exception. */
  function Flaw(h: Host, exc: Record): (r: Option<Problem>)
    ensures r.None? <==> Sound(h, exc)
  {
    if exists f :: f in REQUIRED_FIELDS && (f !in exc || exc[f] == "") then Some(MissingFields)
    else if DateOf(h, exc).None? then Some(InvalidDate)
    else if Blank(KeyOf(h, exc).package) || Blank(KeyOf(h, exc).advisory) then Some(BlankKey)
    else None
  }

  method IndexExceptions(h: Host, excs: seq<Record>) returns (index: map<Key, Entry>, errors: seq<Problem>)
    ensures IsIndex(h, excs, index)
    ensures errors == [] <==> ExceptionsHold(h, excs)
  {
    assert ExceptionsHold(h, []) && IsIndex(h, [], map[]);
    hide ExceptionsHold, IsIndex, KeyOf, EntryOf, Sound, Flaw;
    index, errors := map[], [];
    for n := 0 to |excs|
      invariant IsIndex(h, excs[..n], index)
      invariant errors == [] <==> ExceptionsHold(h, excs[..n])
    {
      var exc := excs[n];
      assert excs[..n + 1] == excs[..n] + [exc];
      IndexStep(h, excs[..n], exc, index);
      var flaw := Flaw(h, exc);
      if flaw.Some? {
        errors := errors + [flaw.value];
        continue;
      }
      var key := KeyOf(h, exc);
      if key in index {
        errors := errors + [DuplicateKey(key)];
        continue;
      }
      index := index[key := EntryOf(h, exc)];
    }
    assert excs[..|excs|] == excs;
  }

  /** A finding among the first n has this key and is looked up. */
  ghost predicate Met(h: Host, fs: seq<Finding>, n: nat, key: Key)
    requires n <= |fs|
  {
    exists m :: 0 <= m < n && Relevant(h, fs[m]) && Named(h, fs[m]) && FindingKey(h, fs[m]) == key
  }

  predicate Permitted(h: Host, index: map<Key, Entry>, f: Finding) {
    FindingKey(h, f) in index && Permits(h, index[FindingKey(h, f)], f)
  }

  ghost predicate FindingHolds(h: Host, index: map<Key, Entry>, fs: seq<Finding>, n: nat)
    requires n < |fs|
  {
    Relevant(h, fs[n]) ==> Named(h, fs[n]) && (FirstOfKey(h, fs, n) ==> Permitted(h, index, fs[n]))
  }

  predicate Distinct(keys: seq<Key>) { forall m, n :: 0 <= m < n < |keys| ==> keys[m] != keys[n] }

  lemma FirstIsUnmet(h: Host, fs: seq<Finding>, n: nat)
    requires n < |fs| && Named(h, fs[n])
    ensures FirstOfKey(h, fs, n) <==> !Met(h, fs, n, FindingKey(h, fs[n]))
  {
    if m :| 0 <= m < n && Relevant(h, fs[m]) && FindingKey(h, fs[m]) == FindingKey(h, fs[n]) {
      assert Named(h, fs[m]);
    }
  }

  lemma MetStep(h: Host, fs: seq<Finding>, n: nat, key: Key)
    requires n < |fs|
    ensures Met(h, fs, n + 1, key)
            <==> Met(h, fs, n, key) || (Relevant(h, fs[n]) && Named(h, fs[n]) && FindingKey(h, fs[n]) == key)
  {}

  ghost predicate AllHold(h: Host, index: map<Key, Entry>, fs: seq<Finding>, n: nat)
    requires n <= |fs|
  {
    forall m :: 0 <= m < n ==> FindingHolds(h, index, fs, m)
  }

  ghost predicate IsSeen(h: Host, fs: seq<Finding>, n: nat, seen: set<Key>)
    requires n <= |fs|
  {
    forall key :: key in seen <==> Met(h, fs, n, key)
  }

  /** What one more finding changes, in terms of the keys seen so far. */
  lemma ScanStep(h: Host, index: map<Key, Entry>, fs: seq<Finding>, n: nat, seen: set<Key>)
    requires n < |fs| && IsSeen(h, fs, n, seen)
    ensures var key := FindingKey(h, fs[n]);
            && IsSeen(h, fs, n + 1,
                      if Relevant(h, fs[n]) && !Blank(key.advisory) && key !in seen then seen + {key} else seen)
            && (AllHold(h, index, fs, n + 1)
                <==> AllHold(h, index, fs, n)
                     && (Relevant(h, fs[n]) ==> !Blank(key.advisory) && (key in seen || Permitted(h, index, fs[n]))))
  {
    hide Met, FirstOfKey, Relevant, Permitted;
    forall key { MetStep(h, fs, n, key); }
    if Named(h, fs[n]) { FirstIsUnmet(h, fs, n); }
    assert FindingHolds(h, index, fs, n)
        <==> (Relevant(h, fs[n]) ==> Named(h, fs[n]) && (FindingKey(h, fs[n]) in seen || Permitted(h, index, fs[n])));
    assert AllHold(h, index, fs, n + 1) <==> AllHold(h, index, fs, n) && FindingHolds(h, index, fs, n);
  }

  /** The two report lists name the uncovered and the expired keys seen so far, each once. */
  ghost predicate Reported(h: Host, index: map<Key, Entry>, seen: set<Key>, missing: seq<Key>, expired: seq<Key>) {
    && Distinct(missing) && (forall key :: key in missing <==> key in seen && key !in index)
    && Distinct(expired)
    && (forall key :: key in expired <==> key in seen && key in index && index[key].expiresOn < h.today)
  }

  lemma ReportStep(h: Host, index: map<Key, Entry>, seen: set<Key>, missing: seq<Key>, expired: seq<Key>, key: Key)
    requires Reported(h, index, seen, missing, expired) && key !in seen
    ensures var all := seen + {key};
            if key !in index then Reported(h, index, all, missing + [key], expired)
            else Reported(h, index, all, missing, expired + if index[key].expiresOn < h.today then [key] else [])
  {}

  /** Where the scan stands after n findings. */
  ghost predicate Scanned(h: Host, index: map<Key, Entry>, fs: seq<Finding>, n: nat, seen: set<Key>,
                          errors: seq<Problem>, missing: seq<Key>, expired: seq<Key>)
  {
    && n <= |fs| && (forall m :: 0 <= m < n ==> !fs[m].severity.NotText?)
    && IsSeen(h, fs, n, seen) && Reported(h, index, seen, missing, expired)
    && (errors == [] && missing == [] && expired == [] <==> AllHold(h, index, fs, n))
  }

  /** A finding that is skipped, or one without an advisory, which is an error. */
  lemma ScanUnkeyed(h: Host, index: map<Key, Entry>, fs: seq<Finding>, n: nat, seen: set<Key>, errors: seq<Problem>,
                    missing: seq<Key>, expired: seq<Key>)
    requires n < |fs| && Scanned(h, index, fs, n, seen, errors, missing, expired) && !fs[n].severity.NotText?
    requires !Relevant(h, fs[n]) || !Named(h, fs[n])
    ensures Scanned(h, index, fs, n + 1, seen, errors + if Relevant(h, fs[n]) then [NoAdvisory] else [], missing,
                    expired)
  {
    ScanStep(h, index, fs, n, seen);
    hide AllHold, IsSeen, Reported, Relevant, FindingKey;
  }

  lemma ScanSeen(h: Host, index: map<Key, Entry>, fs: seq<Finding>, n: nat, seen: set<Key>, errors: seq<Problem>,
                 missing: seq<Key>, expired: seq<Key>)
    requires n < |fs| && Scanned(h, index, fs, n, seen, errors, missing, expired) && !fs[n].severity.NotText?
    requires Relevant(h, fs[n]) && Named(h, fs[n]) && FindingKey(h, fs[n]) in seen
    ensures Scanned(h, index, fs, n + 1, seen, errors, missing, expired)
  {
    ScanStep(h, index, fs, n, seen);
    hide AllHold, IsSeen, Reported, Relevant, FindingKey, Permitted;
  }

  /** The first finding of a key: uncovered, or checked for its severity and its date. */
  lemma ScanNew(h: Host, index: map<Key, Entry>, fs: seq<Finding>, n: nat, seen: set<Key>, errors: seq<Problem>,
                missing: seq<Key>, expired: seq<Key>)
    requires n < |fs| && Scanned(h, index, fs, n, seen, errors, missing, expired) && !fs[n].severity.NotText?
    requires Relevant(h, fs[n]) && Named(h, fs[n]) && FindingKey(h, fs[n]) !in seen
    ensures var key := FindingKey(h, fs[n]);
            if key !in index then Scanned(h, index, fs, n + 1, seen + {key}, errors, missing + [key], expired)
            else Scanned(h, index, fs, n + 1, seen + {key}, errors + Mismatch(h, key, index[key], fs[n]), missing,
                         expired + if index[key].expiresOn < h.today then [key] else [])
  {
    hide AllHold, IsSeen, Reported, Relevant, FindingKey, SeverityOf, Blank;
    ScanStep(h, index, fs, n, seen);
    ReportStep(h, index, seen, missing, expired, FindingKey(h, fs[n]));
  }

  function Mismatch(h: Host, key: Key, e: Entry, f: Finding): seq<Problem> {
    if !Blank(e.severity) && e.severity != SeverityOf(h, f) then [SeverityMismatch(key)] else []
  }

  /** The scan of the findings: it raises at a severity that is no string; otherwise each uncovered or
      expired key is reported exactly once. */
  method ScanFindings(h: Host, index: map<Key, Entry>, fs: seq<Finding>)
    returns (raised: bool, errors: seq<Problem>, missing: seq<Key>, expired: seq<Key>)
    ensures raised <==> SomeNotText(fs)
    ensures !raised ==> (errors == [] && missing == [] && expired == [] <==> AllHold(h, index, fs, |fs|))
    ensures !raised ==> exists seen :: IsSeen(h, fs, |fs|, seen) && Reported(h, index, seen, missing, expired)
  {
    raised, errors, missing, expired := false, [], [], [];
    var seen: set<Key> := {};
    assert Scanned(h, index, fs, 0, seen, errors, missing, expired);
    hide AllHold, IsSeen, Reported, IsHigh, Blank, NormalizePackage, NormalizeAdvisory, NormalizeSeverity;
    for n := 0 to |fs|
      invariant Scanned(h, index, fs, n, seen, errors, missing, expired)
    {
      var f := fs[n];
      if f.severity.NotText? { return true, errors, missing, expired; }
      var severity := NormalizeSeverity(h, TextOf(f.severity));
      if !IsHigh(severity) || f.name.None? {
        ScanUnkeyed(h, index, fs, n, seen, errors, missing, expired);
        assert errors + [] == errors;
        continue;
      }
      var advisory := NormalizeAdvisory(h, f.advisory);
      if Blank(advisory) {
        ScanUnkeyed(h, index, fs, n, seen, errors, missing, expired);
        errors := errors + [NoAdvisory];
        continue;
      }
      var key := Key(NormalizePackage(f.name), advisory);
      if key in seen {
        ScanSeen(h, index, fs, n, seen, errors, missing, expired);
        continue;
      }
      ScanNew(h, index, fs, n, seen, errors, missing, expired);
      seen := seen + {key};
      if key !in index {
        missing := missing + [key];
        continue;
      }
      var e := index[key];
      errors := errors + if !Blank(e.severity) && e.severity != severity then [SeverityMismatch(key)] else [];
      expired := expired + if e.expiresOn < h.today then [key] else [];
    }
  }

  /** On a sound list the index answers as the list does. */
  lemma PermittedIsCovered(h: Host, excs: seq<Record>, index: map<Key, Entry>, f: Finding)
    requires IsIndex(h, excs, index) && ExceptionsHold(h, excs)
    ensures Permitted(h, index, f) <==> Covered(h, excs, f)
  {
    var key := FindingKey(h, f);
    LookupNone(h, excs, key);
    forall e | 0 <= e < |excs| && HasKey(h, excs[e], key) ensures Lookup(h, excs, key) == Some(excs[e]) {
      LookupUnique(h, excs, e);
    }
    hide HasKey, Permits;
  }

  datatype Outcome = Exit(code: int) | Raised

  /** How the script ends for these exceptions and findings. */
  ghost function Verdict(h: Host, text: string, fs: seq<Finding>): Outcome {
    if SomeBadItem(FileLines(text)) || SomeNotText(fs) then Raised
    else if Accepts(h, RecordsOf(FileLines(text)), fs) then Exit(0) else Exit(1)
  }

  /** The same from the audit's JSON on. `iter_vulns` runs inside the scan; wherever it raises, the script does. */
  ghost function AuditVerdict(h: Host, text: string, data: Json): Outcome {
    match Vulns(h.show, data) case None => Raised case Some(fs) => Verdict(h, text, fs)
  }

  /** `main` after its two files were read: the text of the exceptions and the decoded audit. */
  method Gate(h: Host, text: string, data: Json) returns (r: Outcome)
    ensures r == Raised
            <==> SomeBadItem(FileLines(text)) || Vulns(h.show, data).None? || SomeNotText(Vulns(h.show, data).value)
    ensures r == Exit(0)
            <==> && !SomeBadItem(FileLines(text)) && Vulns(h.show, data).Some?
                 && !SomeNotText(Vulns(h.show, data).value)
                 && Accepts(h, RecordsOf(FileLines(text)), Vulns(h.show, data).value)
    ensures r == AuditVerdict(h, text, data)
  {
    hide Parse, RecordsOf, FileLines, Accepts, Vulns, SomeBadItem, SomeNotText, AllHold, IsIndex, ExceptionsHold;
    ParseStructure(FileLines(text));
    var parsed := ParseExceptions(FileLines(text));
    if parsed.None? { return Raised; }
    var index, errors := IndexExceptions(h, parsed.value);
    var found := IterVulns(h.show, data);
    if found.None? { return Raised; }
    var raised, problems, missing, expired := ScanFindings(h, index, found.value);
    if raised { return Raised; }
    AcceptsByIndex(h, parsed.value, index, found.value);
    errors := errors + problems;
    if missing != [] { errors := errors + seq(|missing|, i requires 0 <= i < |missing| => Uncovered(missing[i])); }
    if expired != [] { errors := errors + seq(|expired|, i requires 0 <= i < |expired| => Expired(expired[i])); }
    r := if errors != [] then Exit(1) else Exit(0);
  }

  lemma AcceptsByIndex(h: Host, excs: seq<Record>, index: map<Key, Entry>, fs: seq<Finding>)
    requires IsIndex(h, excs, index)
    ensures Accepts(h, excs, fs)
            <==> ExceptionsHold(h, excs) && AllHold(h, index, fs, |fs|)
  {
    hide IsIndex, ExceptionsHold, Covered, Permitted, FirstOfKey, Named, Relevant;
    if ExceptionsHold(h, excs) {
      forall n | 0 <= n < |fs| { PermittedIsCovered(h, excs, index, fs[n]); }
      if FindingsHold(h, excs, fs) {
        forall n | 0 <= n < |fs| ensures FindingHolds(h, index, fs, n) {}
      }
      if forall n :: 0 <= n < |fs| ==> FindingHolds(h, index, fs, n) {
        forall n | 0 <= n < |fs| && Relevant(h, fs[n])
          ensures Named(h, fs[n]) && (FirstOfKey(h, fs, n) ==> Covered(h, excs, fs[n]))
        {
          assert FindingHolds(h, index, fs, n);
        }
      }
    }
  }
}
