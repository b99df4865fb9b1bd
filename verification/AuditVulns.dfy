/** What the gate takes from the audit's JSON: one tuple a vulnerability, or an exception. */
module AuditVulns {
  import opened Rows

  /** A decoded JSON value; Python's None is Nil. A number's text is what `str` makes of it. */
  datatype Json =
    | Nil
    | Bool(value: bool)
    | Number(text: string, zero: bool)
    | Str(chars: string)
    | List(items: seq<Json>)
    | Obj(entries: seq<(string, Json)>)

  /** The severity of a finding: falsy, a string, or any other value. */
  datatype Severity = Unset | Said(text: string) | NotText

  /** One tuple of `iter_vulns`: a falsy name is None, and so is an advisory that is Python's None. */
  datatype Finding = Finding(name: Option<string>, severity: Severity, advisory: Option<string>)

  // ---------------------------------------------------------------- Python on JSON values

  predicate Truthy(v: Json) {
    match v
    case Nil => false
    case Bool(b) => b
    case Number(_, zero) => !zero
    case Str(s) => s != ""
    case List(items) => items != []
    case Obj(entries) => entries != []
  }

  /** `or`. */
  function Or(a: Json, b: Json): Json { if Truthy(a) then a else b }

  function Find(entries: seq<(string, Json)>, key: string): Json {
    if entries == [] then Nil else if entries[0].0 == key then entries[0].1 else Find(entries[1..], key)
  }

  /** `dict.get`. */
  function Get(v: Json, key: string): Json
    requires v.Obj?
  {
    Find(v.entries, key)
  }

  /** `str`; `show` stands for it on lists, objects, booleans and None. */
  function Shown(show: Json -> string, v: Json): string {
    match v case Str(s) => s case Number(text, _) => text case _ => show(v)
  }

  function SeverityFrom(v: Json): Severity {
    if !Truthy(v) then Unset else if v.Str? then Said(v.chars) else NotText
  }

  function NameFrom(show: Json -> string, v: Json): Option<string> {
    if Truthy(v) then Some(Shown(show, v)) else None
  }

  function AdvisoryFrom(show: Json -> string, v: Json): Option<string> {
    if v.Nil? then None else Some(Shown(show, v))
  }

  // ---------------------------------------------------------------- advisories

  /** `(cves or [None])[0]`; None where indexing raises. */
  function FirstCve(cves: Json): Option<Json> {
    if !Truthy(cves) then Some(Nil)
    else match cves
         case List(items) => Some(items[0])
         case Str(s) => Some(Str([s[0]]))
         case _ => None
  }

  function IdText(show: Json -> string, id: Json): Json { if id.Nil? then Nil else Str(Shown(show, id)) }

  /** `pick_advisory_id`; None where it raises. */
  function PickAdvisoryId(show: Json -> string, a: Json): Option<Json>
    requires a.Obj?
  {
    var first := Or(Get(a, "github_advisory_id"), Get(a, "url"));
    if Truthy(first) then Some(first)
    else match FirstCve(Get(a, "cves"))
         case None => None
         case Some(cve) =>
           var idOrTitle := Or(Or(cve, IdText(show, Get(a, "id"))), Get(a, "title"));
           Some(Or(Or(idOrTitle, Get(a, "advisory")), Get(a, "overview")))
  }

  /** The finding of one entry of `advisories`; None where it raises. */
  function AdvisoryFinding(show: Json -> string, a: Json): Option<Finding> {
    if !a.Obj? then None
    else match PickAdvisoryId(show, a)
         case None => None
         case Some(id) =>
           Some(Finding(NameFrom(show, Or(Get(a, "module_name"), Get(a, "name"))), SeverityFrom(Get(a, "severity")),
                        AdvisoryFrom(show, id)))
  }

  // ---------------------------------------------------------------- vulnerabilities

  /** The advisory and the title one `via` item gives; None where it is skipped. */
  function ViaItem(item: Json): Option<(Json, Json)> {
    match item
    case Obj(_) =>
      var advisory := Or(Or(Or(Or(Get(item, "github_advisory_id"), Get(item, "url")), Get(item, "source")),
                            Get(item, "title")), Get(item, "name"));
      var title := Or(Or(Or(Get(item, "title"), Get(item, "url")), Get(item, "advisory")), Get(item, "source"));
      Some((advisory, title))
    case Str(_) => Some((item, item))
    case _ => None
  }

  /** `via` as the items it is made of: a single string stands for itself. */
  function ViaItems(via: Json): seq<Json> {
    match via case List(items) => items case Str(_) => [via] case _ => []
  }

  /** A title the join would trip over. */
  predicate BadTitle(item: Json) {
    ViaItem(item).Some? && Truthy(ViaItem(item).value.1) && !ViaItem(item).value.1.Str?
  }

  predicate SomeBadTitle(items: seq<Json>) { exists i :: 0 <= i < |items| && BadTitle(items[i]) }

  function ViaFindings(show: Json -> string, name: string, severity: Severity, items: seq<Json>): seq<Finding> {
    if items == [] then []
    else
      var rest := ViaFindings(show, name, severity, items[1..]);
      match ViaItem(items[0])
      case None => rest
      case Some((advisory, _)) =>
        if Truthy(advisory)
        then [Finding(NameFrom(show, Str(name)), severity, AdvisoryFrom(show, advisory))] + rest
        else rest
  }

  /** The findings of one entry of `vulnerabilities`; None where it raises. */
  function VulnFindings(show: Json -> string, entry: (string, Json)): Option<seq<Finding>> {
    var (name, vuln) := entry;
    if !vuln.Obj? then None
    else
      var items := ViaItems(Get(vuln, "via"));
      if SomeBadTitle(items) then None
      else Some(ViaFindings(show, name, SeverityFrom(Get(vuln, "severity")), items))
  }

  // ---------------------------------------------------------------- iter_vulns

  /** The entries of a section: a value that is no object counts as none. */
  function Section(data: Json, key: string): seq<(string, Json)>
    requires data.Obj?
  {
    if Get(data, key).Obj? then Get(data, key).entries else []
  }

  function AllAdvisories(show: Json -> string, entries: seq<(string, Json)>): Option<seq<Finding>> {
    if entries == [] then Some([])
    else match AdvisoryFinding(show, entries[0].1)
         case None => None
         case Some(f) =>
           match AllAdvisories(show, entries[1..]) case None => None case Some(rest) => Some([f] + rest)
  }

  function AllVulns(show: Json -> string, entries: seq<(string, Json)>): Option<seq<Finding>> {
    if entries == [] then Some([])
    else match VulnFindings(show, entries[0])
         case None => None
         case Some(fs) =>
           match AllVulns(show, entries[1..]) case None => None case Some(rest) => Some(fs + rest)
  }

  /** Everything `iter_vulns` yields; None where it raises on the way. */
  function Vulns(show: Json -> string, data: Json): Option<seq<Finding>> {
    if !data.Obj? then None
    else match AllAdvisories(show, Section(data, "advisories"))
         case None => None
         case Some(fs) =>
           match AllVulns(show, Section(data, "vulnerabilities")) case None => None case Some(gs) => Some(fs + gs)
  }

  /** The loop over `via`: titles and advisories side by side. */
  method ScanVia(show: Json -> string, name: string, severity: Severity, items: seq<Json>)
    returns (r: Option<seq<Finding>>)
    ensures r.None? <==> SomeBadTitle(items)
    ensures r.Some? ==> r.value == ViaFindings(show, name, severity, items)
  {
    hide ViaItem, BadTitle, SomeBad, SomeBadTitle, FromAdvisories, ViaFindings;
    var titles: seq<Json>, advisories: seq<Json> := [], [];
    ViaStart(show, name, severity, items);
    for n := 0 to |items|
      invariant SomeBad(titles) <==> SomeBadTitle(items[..n])
      invariant FromAdvisories(show, name, severity, advisories) + ViaFindings(show, name, severity, items[n..])
                == ViaFindings(show, name, severity, items)
    {
      TitleStep(items, n, titles);
      AdvisoryStep(show, name, severity, advisories, items, n);
      var pair := ViaItem(items[n]);
      if pair.Some? {
        advisories := advisories + [pair.value.0];
        titles := titles + [pair.value.1];
      }
    }
    assert items[..|items|] == items && items[|items|..] == [];
    ViaStart(show, name, severity, []);
    if SomeBad(titles) { return None; }
    r := Some(FromAdvisories(show, name, severity, advisories));
  }

  /** A title `"; ".join` raises on. */
  predicate SomeBad(titles: seq<Json>) { exists i :: 0 <= i < |titles| && Truthy(titles[i]) && !titles[i].Str? }

  lemma ViaStart(show: Json -> string, name: string, severity: Severity, items: seq<Json>)
    ensures !SomeBad([]) && !SomeBadTitle([]) && items[..0] == [] && items[0..] == items
    ensures FromAdvisories(show, name, severity, []) == [] && ViaFindings(show, name, severity, []) == []
  {}

  lemma TitleStep(items: seq<Json>, n: nat, titles: seq<Json>)
    requires n < |items| && (SomeBad(titles) <==> SomeBadTitle(items[..n]))
    ensures var pair := ViaItem(items[n]);
            SomeBad(if pair.Some? then titles + [pair.value.1] else titles) <==> SomeBadTitle(items[..n + 1])
  {
    hide ViaItem, Truthy;
    var pair := ViaItem(items[n]);
    assert items[..n + 1][n] == items[n] && forall i :: 0 <= i < n ==> items[..n + 1][i] == items[..n][i];
    assert SomeBadTitle(items[..n + 1]) <==> SomeBadTitle(items[..n]) || BadTitle(items[n]);
    if pair.Some? {
      var all := titles + [pair.value.1];
      assert all[|titles|] == pair.value.1;
      if i :| 0 <= i < |titles| && Truthy(titles[i]) && !titles[i].Str? { assert all[i] == titles[i]; }
    }
  }

  lemma AdvisoryStep(show: Json -> string, name: string, severity: Severity, advisories: seq<Json>, items: seq<Json>,
                     n: nat)
    requires n < |items|
    ensures var pair := ViaItem(items[n]);
            FromAdvisories(show, name, severity, advisories) + ViaFindings(show, name, severity, items[n..])
            == FromAdvisories(show, name, severity, if pair.Some? then advisories + [pair.value.0] else advisories)
               + ViaFindings(show, name, severity, items[n + 1..])
  {
    hide ViaItem, Truthy;
    assert items[n..][0] == items[n] && items[n..][1..] == items[n + 1..];
    if ViaItem(items[n]).Some? {
      assert (advisories + [ViaItem(items[n]).value.0])[..|advisories|] == advisories;
    }
  }

  /** `for advisory_id in [a for a in advisories if a]: yield ...` */
  function FromAdvisories(show: Json -> string, name: string, severity: Severity, advisories: seq<Json>): seq<Finding> {
    if advisories == [] then []
    else
      var last := advisories[|advisories| - 1];
      FromAdvisories(show, name, severity, advisories[..|advisories| - 1])
      + if Truthy(last) then [Finding(NameFrom(show, Str(name)), severity, AdvisoryFrom(show, last))] else []
  }

  /** `iter_vulns`, run to its end. */
  method IterVulns(show: Json -> string, data: Json) returns (r: Option<seq<Finding>>)
    ensures r == Vulns(show, data)
  {
    if !data.Obj? { return None; }
    var found: seq<Finding> := [];
    var advisories, vulns := Section(data, "advisories"), Section(data, "vulnerabilities");
    assert advisories[0..] == advisories && vulns[0..] == vulns;
    VulnsJoined(show, data);
    hide AllAdvisories, AllVulns, AdvisoryFinding, ViaItem, ViaItems, ViaFindings, SomeBadTitle, Vulns, Section;
    for n := 0 to |advisories|
      invariant Joined([], AllAdvisories(show, advisories)) == Joined(found, AllAdvisories(show, advisories[n..]))
    {
      NextAdvisory(show, found, advisories[n..]);
      assert advisories[n..][1..] == advisories[n + 1..];
      var f := AdvisoryFinding(show, advisories[n].1);
      if f.None? { return None; }
      found := found + [f.value];
    }
    NothingLeft(show, found, advisories[|advisories|..]);
    ghost var first := found;
    for n := 0 to |vulns|
      invariant Joined(first, AllVulns(show, vulns)) == Joined(found, AllVulns(show, vulns[n..]))
    {
      NextVuln(show, found, vulns[n..]);
      assert vulns[n..][1..] == vulns[n + 1..];
      var (name, vuln) := vulns[n];
      if !vuln.Obj? { return None; }
      var fs := ScanVia(show, name, SeverityFrom(Get(vuln, "severity")), ViaItems(Get(vuln, "via")));
      if fs.None? { return None; }
      found := found + fs.value;
    }
    NothingLeft(show, found, vulns[|vulns|..]);
    r := Some(found);
  }

  function Joined(fs: seq<Finding>, rest: Option<seq<Finding>>): Option<seq<Finding>> {
    if rest.None? then None else Some(fs + rest.value)
  }

  lemma VulnsJoined(show: Json -> string, data: Json)
    requires data.Obj?
    ensures var fs := Joined([], AllAdvisories(show, Section(data, "advisories")));
            Vulns(show, data)
            == if fs.None? then None else Joined(fs.value, AllVulns(show, Section(data, "vulnerabilities")))
  {
    hide AllAdvisories, AllVulns, Section;
    assert forall fs: seq<Finding> :: [] + fs == fs;
  }

  lemma NextAdvisory(show: Json -> string, found: seq<Finding>, entries: seq<(string, Json)>)
    requires entries != []
    ensures var f := AdvisoryFinding(show, entries[0].1);
            Joined(found, AllAdvisories(show, entries))
            == if f.None? then None else Joined(found + [f.value], AllAdvisories(show, entries[1..]))
  {
    hide AdvisoryFinding;
    var f, rest := AdvisoryFinding(show, entries[0].1), AllAdvisories(show, entries[1..]);
    if f.Some? && rest.Some? { assert found + ([f.value] + rest.value) == found + [f.value] + rest.value; }
  }

  lemma NextVuln(show: Json -> string, found: seq<Finding>, entries: seq<(string, Json)>)
    requires entries != []
    ensures var fs := VulnFindings(show, entries[0]);
            Joined(found, AllVulns(show, entries))
            == if fs.None? then None else Joined(found + fs.value, AllVulns(show, entries[1..]))
  {
    hide VulnFindings;
    var fs, rest := VulnFindings(show, entries[0]), AllVulns(show, entries[1..]);
    if fs.Some? && rest.Some? { assert found + (fs.value + rest.value) == found + fs.value + rest.value; }
  }

  lemma NothingLeft(show: Json -> string, found: seq<Finding>, entries: seq<(string, Json)>)
    requires entries == []
    ensures Joined(found, AllAdvisories(show, entries)) == Some(found) == Joined(found, AllVulns(show, entries))
  {
    assert found + [] == found;
  }

  // ---------------------------------------------------------------- what is yielded, in terms of get and truth

  lemma FalsyExact(v: Json)
    ensures !Truthy(v)
            <==> v == Nil || v == Bool(false) || v == Str("") || v == List([]) || v == Obj([]) || (v.Number? && v.zero)
  {}

  ghost predicate IsFirstKey(entries: seq<(string, Json)>, key: string, i: nat)
    requires i < |entries|
  {
    entries[i].0 == key && forall j :: 0 <= j < i ==> entries[j].0 != key
  }

  /** `get` finds the first entry with the key, or None. */
  lemma {:induction false} FindExact(entries: seq<(string, Json)>, key: string)
    ensures (forall i :: 0 <= i < |entries| ==> entries[i].0 != key) ==> Find(entries, key) == Nil
    ensures forall i :: 0 <= i < |entries| && IsFirstKey(entries, key, i) ==> Find(entries, key) == entries[i].1
  {
    if entries != [] {
      FindExact(entries[1..], key);
      assert forall i :: 0 <= i < |entries[1..]| ==> entries[1..][i] == entries[i + 1];
      forall i | 0 < i < |entries| && IsFirstKey(entries, key, i) ensures IsFirstKey(entries[1..], key, i - 1) {}
    }
  }

  /** What a chain of `or` gives: its first truthy value, or else its last. */
  ghost predicate FirstOf(chain: seq<Json>, v: Json) {
    exists i :: 0 <= i < |chain| && IsFirst(chain, v, i)
  }

  ghost predicate IsFirst(chain: seq<Json>, v: Json, i: nat)
    requires i < |chain|
  {
    chain[i] == v && (Truthy(v) || i == |chain| - 1) && forall j :: 0 <= j < i ==> !Truthy(chain[j])
  }

  /** `str` of a value. */
  ghost predicate IsText(show: Json -> string, v: Json, text: string) {
    && (v.Str? ==> text == v.chars)
    && (v.Number? ==> text == v.text)
    && (!v.Str? && !v.Number? ==> text == show(v))
  }

  ghost predicate NameIs(show: Json -> string, v: Json, name: Option<string>) {
    (name.Some? <==> Truthy(v)) && (name.Some? ==> IsText(show, v, name.value))
  }

  ghost predicate AdvisoryIs(show: Json -> string, v: Json, advisory: Option<string>) {
    (advisory.Some? <==> v != Nil) && (advisory.Some? ==> IsText(show, v, advisory.value))
  }

  ghost predicate SeverityIs(v: Json, severity: Severity) {
    && (severity == Unset <==> !Truthy(v))
    && (Truthy(v) && v.Str? ==> severity == Said(v.chars))
    && (Truthy(v) && !v.Str? ==> severity == NotText)
  }

  /** The first CVE, where there is one to look at. */
  ghost predicate CveIs(cves: Json, cve: Json) {
    && (!Truthy(cves) ==> cve == Nil)
    && (cves.List? && cves.items != [] ==> cve == cves.items[0])
    && (cves.Str? && cves.chars != "" ==> cve == Str(cves.chars[..1]))
  }

  /** The text of an id, None without one. */
  ghost predicate IdIs(show: Json -> string, v: Json, id: Json) {
    if v.Nil? then id == Nil else id.Str? && IsText(show, v, id.chars)
  }

  /** `pick_advisory_id`: the GitHub id, the URL, the first CVE, the text of the id, the title, the advisory text, the
      overview, whichever is truthy first. */
  ghost predicate Picks(show: Json -> string, a: Json, v: Json)
    requires a.Obj?
  {
    exists cve, id ::
      && CveIs(Get(a, "cves"), cve) && IdIs(show, Get(a, "id"), id)
      && FirstOf([Get(a, "github_advisory_id"), Get(a, "url"), cve, id, Get(a, "title"), Get(a, "advisory"),
                  Get(a, "overview")], v)
  }

  /** The finding of one entry of `advisories`. */
  ghost predicate AdvisoryGives(show: Json -> string, a: Json, f: Finding) {
    && a.Obj? && SeverityIs(Get(a, "severity"), f.severity)
    && (exists v :: FirstOf([Get(a, "module_name"), Get(a, "name")], v) && NameIs(show, v, f.name))
    && (exists v :: Picks(show, a, v) && AdvisoryIs(show, v, f.advisory))
  }

  ghost predicate ItemsOf(via: Json, items: seq<Json>) {
    items == if via.List? then via.items else if via.Str? then [via] else []
  }

  /** The advisory of one `via` item: the GitHub id, the URL, the source, the title, the name. */
  ghost predicate ItemAdvisory(item: Json, v: Json) {
    || (item.Str? && v == item)
    || (item.Obj? && FirstOf([Get(item, "github_advisory_id"), Get(item, "url"), Get(item, "source"),
                              Get(item, "title"), Get(item, "name")], v))
  }

  ghost predicate ItemTitle(item: Json, v: Json) {
    || (item.Str? && v == item)
    || (item.Obj? && FirstOf([Get(item, "title"), Get(item, "url"), Get(item, "advisory"), Get(item, "source")], v))
  }

  /** A title `"; ".join` raises on. */
  ghost predicate TitleFails(item: Json) { exists v :: ItemTitle(item, v) && Truthy(v) && !v.Str? }

  /** The finding of one `via` item of a package. */
  ghost predicate ItemGives(show: Json -> string, e: (string, Json), item: Json, f: Finding)
    requires e.1.Obj?
  {
    && NameIs(show, Str(e.0), f.name) && SeverityIs(Get(e.1, "severity"), f.severity)
    && exists v :: ItemAdvisory(item, v) && Truthy(v) && AdvisoryIs(show, v, f.advisory)
  }

  ghost predicate GivesNone(item: Json) { forall v :: ItemAdvisory(item, v) ==> !Truthy(v) }

  function Flat(parts: seq<seq<Finding>>): seq<Finding> { if parts == [] then [] else parts[0] + Flat(parts[1..]) }

  /** The findings of one entry of `vulnerabilities`: one or none an item, in order. */
  ghost predicate VulnGives(show: Json -> string, e: (string, Json), fs: seq<Finding>) {
    && e.1.Obj?
    && exists items, parts :: ItemsOf(Get(e.1, "via"), items) && ItemsGive(show, e, items, parts) && fs == Flat(parts)
  }

  ghost predicate ItemsGive(show: Json -> string, e: (string, Json), items: seq<Json>, parts: seq<seq<Finding>>)
    requires e.1.Obj?
  {
    |parts| == |items|
    && forall i :: 0 <= i < |items| ==>
         if GivesNone(items[i]) then parts[i] == [] else |parts[i]| == 1 && ItemGives(show, e, items[i], parts[i][0])
  }

  /** The findings of a section, entry by entry; a value that is no object has no entries. */
  ghost predicate AdvisoriesGive(show: Json -> string, section: Json, fs: seq<Finding>) {
    if section.Obj?
    then |fs| == |section.entries| && forall i :: 0 <= i < |fs| ==> AdvisoryGives(show, section.entries[i].1, fs[i])
    else fs == []
  }

  ghost predicate VulnsGive(show: Json -> string, section: Json, parts: seq<seq<Finding>>) {
    if section.Obj?
    then |parts| == |section.entries| && forall i :: 0 <= i < |parts| ==> VulnGives(show, section.entries[i], parts[i])
    else parts == []
  }

  /** An advisory `iter_vulns` raises on: no object, or nothing truthy before CVEs that cannot be indexed. */
  ghost predicate BadAdvisory(a: Json) {
    || !a.Obj?
    || (!Truthy(Get(a, "github_advisory_id")) && !Truthy(Get(a, "url"))
        && Truthy(Get(a, "cves")) && !Get(a, "cves").List? && !Get(a, "cves").Str?)
  }

  ghost predicate BadVuln(v: Json) {
    || !v.Obj?
    || exists items, i :: ItemsOf(Get(v, "via"), items) && 0 <= i < |items| && TitleFails(items[i])
  }

  ghost predicate HasEntry(section: Json, e: (string, Json)) { section.Obj? && e in section.entries }

  // ---------------------------------------------------------------- chains

  lemma OneOf(v: Json)
    ensures FirstOf([v], v)
  {
    assert IsFirst([v], v, 0);
  }

  lemma OrStep(chain: seq<Json>, v: Json, w: Json)
    requires FirstOf(chain, v)
    ensures FirstOf(chain + [w], Or(v, w))
  {
    var i :| 0 <= i < |chain| && IsFirst(chain, v, i);
    var more := chain + [w];
    assert forall j :: 0 <= j < |chain| ==> more[j] == chain[j];
    if Truthy(v) { assert IsFirst(more, v, i); } else { assert IsFirst(more, w, |chain|); }
  }

  lemma FirstStays(chain: seq<Json>, v: Json, more: seq<Json>)
    requires FirstOf(chain, v) && Truthy(v)
    ensures FirstOf(chain + more, v)
  {
    var i :| 0 <= i < |chain| && IsFirst(chain, v, i);
    assert IsFirst(chain + more, v, i);
  }

  lemma FirstIsUnique(chain: seq<Json>, v: Json, w: Json)
    requires FirstOf(chain, v) && FirstOf(chain, w)
    ensures v == w
  {
    var i :| 0 <= i < |chain| && IsFirst(chain, v, i);
    var j :| 0 <= j < |chain| && IsFirst(chain, w, j);
  }

  // ---------------------------------------------------------------- the functions say that

  lemma PickGives(show: Json -> string, a: Json)
    requires a.Obj? && PickAdvisoryId(show, a).Some?
    ensures Picks(show, a, PickAdvisoryId(show, a).value)
  {
    hide FirstOf, Truthy;
    var gh, url, title := Get(a, "github_advisory_id"), Get(a, "url"), Get(a, "title");
    var text, overview, id := Get(a, "advisory"), Get(a, "overview"), IdText(show, Get(a, "id"));
    var cve := FirstCveOrNil(Get(a, "cves"));
    assert IdIs(show, Get(a, "id"), id);
    OneOf(gh);
    OrStep([gh], gh, url);
    assert [gh] + [url] == [gh, url];
    var first := Or(gh, url);
    if Truthy(first) {
      FirstStays([gh, url], first, [cve, id, title, text, overview]);
      assert [gh, url] + [cve, id, title, text, overview] == [gh, url, cve, id, title, text, overview];
    } else {
      PickRest(gh, url, cve, id, title, text, overview);
    }
  }

  lemma FirstCveOrNil(cves: Json) returns (cve: Json)
    ensures CveIs(cves, cve) && (FirstCve(cves).Some? ==> FirstCve(cves) == Some(cve))
  {
    cve := if FirstCve(cves).Some? then FirstCve(cves).value else Nil;
  }

  lemma PickRest(gh: Json, url: Json, cve: Json, id: Json, title: Json, text: Json, overview: Json)
    requires !Truthy(gh) && !Truthy(url)
    ensures FirstOf([gh, url, cve, id, title, text, overview], Or(Or(Or(Or(cve, id), title), text), overview))
  {
    var v, rest := Or(Or(Or(Or(cve, id), title), text), overview), [cve, id, title, text, overview];
    FiveOf(cve, id, title, text, overview);
    FalsyFront(url, rest, v);
    FalsyFront(gh, [url] + rest, v);
    assert [gh] + ([url] + rest) == [gh, url, cve, id, title, text, overview];
  }

  lemma FalsyFront(x: Json, chain: seq<Json>, v: Json)
    requires !Truthy(x) && FirstOf(chain, v)
    ensures FirstOf([x] + chain, v)
  {
    var i :| 0 <= i < |chain| && IsFirst(chain, v, i);
    assert IsFirst([x] + chain, v, i + 1);
  }

  lemma TextGives(show: Json -> string, v: Json)
    ensures IsText(show, v, Shown(show, v)) && NameIs(show, v, NameFrom(show, v))
    ensures AdvisoryIs(show, v, AdvisoryFrom(show, v)) && SeverityIs(v, SeverityFrom(v))
  {}

  lemma AdvisoryIsGiven(show: Json -> string, a: Json)
    ensures AdvisoryFinding(show, a).None? <==> BadAdvisory(a)
    ensures AdvisoryFinding(show, a).Some? ==> AdvisoryGives(show, a, AdvisoryFinding(show, a).value)
  {
    hide Truthy, FirstOf, Picks, NameIs, AdvisoryIs, SeverityIs, NameFrom, SeverityFrom, AdvisoryFrom, IdText;
    if a.Obj? { PickFails(show, a); }
    if AdvisoryFinding(show, a).Some? {
      hide PickAdvisoryId;
      PickGives(show, a);
      var name, other := Get(a, "module_name"), Get(a, "name");
      OneOf(name);
      OrStep([name], name, other);
      assert [name] + [other] == [name, other];
      TextGives(show, Or(name, other));
      TextGives(show, Get(a, "severity"));
      TextGives(show, PickAdvisoryId(show, a).value);
    }
  }

  lemma PickFails(show: Json -> string, a: Json)
    requires a.Obj?
    ensures PickAdvisoryId(show, a).None? <==> BadAdvisory(a)
  {}

  lemma ItemIsGiven(item: Json)
    ensures ViaItem(item).Some? ==>
              ItemAdvisory(item, ViaItem(item).value.0) && ItemTitle(item, ViaItem(item).value.1)
    ensures ViaItem(item).None? ==> !item.Obj? && !item.Str?
  {
    hide FirstOf, Truthy;
    if item.Obj? {
      var gh, url, source := Get(item, "github_advisory_id"), Get(item, "url"), Get(item, "source");
      var title, name, text := Get(item, "title"), Get(item, "name"), Get(item, "advisory");
      FiveOf(gh, url, source, title, name);
      FourOf(title, url, text, source);
    }
  }

  lemma FourOf(a: Json, b: Json, c: Json, d: Json)
    ensures FirstOf([a, b, c, d], Or(Or(Or(a, b), c), d))
  {
    hide FirstOf, Truthy;
    assert [a] + [b] == [a, b] && [a, b] + [c] == [a, b, c] && [a, b, c] + [d] == [a, b, c, d];
    OneOf(a);
    OrStep([a], a, b);
    OrStep([a, b], Or(a, b), c);
    OrStep([a, b, c], Or(Or(a, b), c), d);
  }

  lemma FiveOf(a: Json, b: Json, c: Json, d: Json, e: Json)
    ensures FirstOf([a, b, c, d, e], Or(Or(Or(Or(a, b), c), d), e))
  {
    hide FirstOf, Truthy;
    FourOf(a, b, c, d);
    OrStep([a, b, c, d], Or(Or(Or(a, b), c), d), e);
    assert [a, b, c, d] + [e] == [a, b, c, d, e];
  }

  lemma AdvisoryIsUnique(item: Json, v: Json, w: Json)
    requires ItemAdvisory(item, v) && ItemAdvisory(item, w)
    ensures v == w
  {
    hide FirstOf;
    if item.Obj? {
      FirstIsUnique([Get(item, "github_advisory_id"), Get(item, "url"), Get(item, "source"), Get(item, "title"),
                     Get(item, "name")], v, w);
    }
  }

  lemma TitleIsUnique(item: Json, v: Json, w: Json)
    requires ItemTitle(item, v) && ItemTitle(item, w)
    ensures v == w
  {
    hide FirstOf;
    if item.Obj? {
      FirstIsUnique([Get(item, "title"), Get(item, "url"), Get(item, "advisory"), Get(item, "source")], v, w);
    }
  }

  lemma TitleFailsExact(item: Json)
    ensures BadTitle(item) <==> TitleFails(item)
  {
    ItemIsGiven(item);
    hide ViaItem, Truthy;
    if BadTitle(item) { assert TitleFails(item); }
    if v :| ItemTitle(item, v) && Truthy(v) && !v.Str? {
      assert ViaItem(item).Some?;
      TitleIsUnique(item, v, ViaItem(item).value.1);
    }
  }

  lemma NoneGiven(item: Json)
    ensures GivesNone(item) <==> ViaItem(item).None? || !Truthy(ViaItem(item).value.0)
  {
    ItemIsGiven(item);
    hide ViaItem, Truthy, ItemTitle;
    if ViaItem(item).Some? {
      forall v | ItemAdvisory(item, v) ensures v == ViaItem(item).value.0 {
        AdvisoryIsUnique(item, v, ViaItem(item).value.0);
      }
    }
  }

  lemma {:induction false} ViaGives(show: Json -> string, e: (string, Json), items: seq<Json>)
    returns (parts: seq<seq<Finding>>)
    requires e.1.Obj?
    ensures ItemsGive(show, e, items, parts)
    ensures ViaFindings(show, e.0, SeverityFrom(Get(e.1, "severity")), items) == Flat(parts)
    decreases items
  {
    hide ViaItem, Truthy, ItemGives, GivesNone, SeverityFrom;
    parts := [];
    if items != [] {
      var rest := ViaGives(show, e, items[1..]);
      var item := items[0];
      NoneGiven(item);
      var part := [];
      if !GivesNone(item) {
        ItemGivesIts(show, e, item);
        part := [Finding(NameFrom(show, Str(e.0)), SeverityFrom(Get(e.1, "severity")),
                         AdvisoryFrom(show, ViaItem(item).value.0))];
      }
      parts := [part] + rest;
      assert parts[1..] == rest;
      assert forall i :: 0 <= i < |items[1..]| ==> items[1..][i] == items[i + 1];
    }
  }

  lemma ItemGivesIts(show: Json -> string, e: (string, Json), item: Json)
    requires e.1.Obj? && ViaItem(item).Some? && Truthy(ViaItem(item).value.0)
    ensures ItemGives(show, e, item, Finding(NameFrom(show, Str(e.0)), SeverityFrom(Get(e.1, "severity")),
                                             AdvisoryFrom(show, ViaItem(item).value.0)))
  {
    hide ViaItem, ItemAdvisory, ItemTitle, Truthy, NameIs, SeverityIs, AdvisoryIs;
    ItemIsGiven(item);
    TextGives(show, Str(e.0));
    TextGives(show, Get(e.1, "severity"));
    TextGives(show, ViaItem(item).value.0);
  }

  lemma VulnIsGiven(show: Json -> string, e: (string, Json))
    ensures VulnFindings(show, e).None? <==> BadVuln(e.1)
    ensures VulnFindings(show, e).Some? ==> VulnGives(show, e, VulnFindings(show, e).value)
  {
    hide ViaFindings, BadTitle, TitleFails, ItemsGive;
    if e.1.Obj? {
      var items := ViaItems(Get(e.1, "via"));
      forall i | 0 <= i < |items| ensures BadTitle(items[i]) <==> TitleFails(items[i]) { TitleFailsExact(items[i]); }
      assert ItemsOf(Get(e.1, "via"), items);
      var parts := ViaGives(show, e, items);
    }
  }

  lemma {:induction false} AdvisoriesInOrder(show: Json -> string, entries: seq<(string, Json)>)
    ensures AllAdvisories(show, entries).None? <==> exists e :: e in entries && BadAdvisory(e.1)
    ensures AllAdvisories(show, entries).Some? ==>
              AdvisoriesGive(show, Obj(entries), AllAdvisories(show, entries).value)
  {
    hide AdvisoryFinding, BadAdvisory, AdvisoryGives;
    if entries != [] {
      AdvisoryIsGiven(show, entries[0].1);
      AdvisoriesInOrder(show, entries[1..]);
      assert entries == [entries[0]] + entries[1..] && entries[0] in entries;
      assert forall i :: 0 <= i < |entries[1..]| ==> entries[1..][i] == entries[i + 1];
    }
  }

  lemma {:induction false} VulnsInOrder(show: Json -> string, entries: seq<(string, Json)>)
    returns (parts: seq<seq<Finding>>)
    ensures AllVulns(show, entries).None? <==> exists e :: e in entries && BadVuln(e.1)
    ensures AllVulns(show, entries).Some? ==>
              VulnsGive(show, Obj(entries), parts) && AllVulns(show, entries).value == Flat(parts)
    decreases entries
  {
    hide VulnFindings, BadVuln, VulnGives;
    parts := [];
    if entries != [] {
      VulnIsGiven(show, entries[0]);
      var rest := VulnsInOrder(show, entries[1..]);
      assert entries == [entries[0]] + entries[1..] && entries[0] in entries;
      assert forall i :: 0 <= i < |entries[1..]| ==> entries[1..][i] == entries[i + 1];
      if VulnFindings(show, entries[0]).Some? {
        parts := [VulnFindings(show, entries[0]).value] + rest;
        assert parts[1..] == rest;
      }
    }
  }

  /** `iter_vulns` raises exactly when the document or an entry of a section is no object, an advisory without a GitHub
      id and a URL has CVEs that cannot be indexed by 0, or a title is truthy and no string. Otherwise it yields, entry
      by entry and item by item, the findings whose ids and names are the first truthy ones of their chains. */
  lemma VulnsExact(show: Json -> string, data: Json)
    ensures Vulns(show, data).None?
            <==> || !data.Obj?
                 || (exists e :: HasEntry(Get(data, "advisories"), e) && BadAdvisory(e.1))
                 || (exists e :: HasEntry(Get(data, "vulnerabilities"), e) && BadVuln(e.1))
    ensures Vulns(show, data).Some? ==>
              exists firsts, parts ::
                && AdvisoriesGive(show, Get(data, "advisories"), firsts)
                && VulnsGive(show, Get(data, "vulnerabilities"), parts)
                && Vulns(show, data).value == firsts + Flat(parts)
  {
    hide AllAdvisories, AllVulns, BadAdvisory, BadVuln, AdvisoryGives, VulnGives, Get;
    if data.Obj? {
      var advisories, vulns := Get(data, "advisories"), Get(data, "vulnerabilities");
      var none: seq<(string, Json)> := [];
      assert Obj(Section(data, "advisories")) == if advisories.Obj? then advisories else Obj(none);
      assert Obj(Section(data, "vulnerabilities")) == if vulns.Obj? then vulns else Obj(none);
      AdvisoriesInOrder(show, Section(data, "advisories"));
      var parts := VulnsInOrder(show, Section(data, "vulnerabilities"));
      if Vulns(show, data).Some? {
        var firsts := AllAdvisories(show, Section(data, "advisories")).value;
        assert AdvisoriesGive(show, advisories, firsts) && VulnsGive(show, vulns, parts);
      }
    }
  }
}
