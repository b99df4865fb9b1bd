/** What exit code 0 says about the exceptions and the findings, down to the fields and the comparisons. */
module AuditMeaning {
  import opened AuditParser
  import opened AuditVulns
  import opened AuditGate

  /** The field is there and not empty. */
  ghost predicate Filled(exc: Record, field: string) { field in exc && exc[field] != "" }

  /** An exception with its five fields, a date, a package and an advisory that are more than space. */
  ghost predicate Usable(h: Host, exc: Record) {
    && Filled(exc, "package") && Filled(exc, "advisory") && Filled(exc, "severity") && Filled(exc, "mitigation")
    && Filled(exc, "expires_on") && h.parseDate(exc["expires_on"]).Some?
    && Strip(exc["package"]) != "" && h.lower(Strip(exc["advisory"])) != ""
  }

  /** Packages are compared as they are, advisories in lower case. */
  ghost predicate SameEntry(h: Host, a: Record, b: Record)
    requires Usable(h, a) && Usable(h, b)
  {
    Strip(a["package"]) == Strip(b["package"]) && h.lower(Strip(a["advisory"])) == h.lower(Strip(b["advisory"]))
  }

  ghost function SeverityText(f: Finding): string { match f.severity case Said(text) => text case _ => "" }

  /** The advisory of a finding as it is compared. */
  ghost function AdvisoryText(h: Host, f: Finding): string {
    match f.advisory case Some(text) => h.lower(Strip(text)) case None => ""
  }

  /** A finding of severity high or critical that names a package. */
  ghost predicate Counts(h: Host, f: Finding) {
    f.name.Some? && (h.lower(Strip(SeverityText(f))) == "high" || h.lower(Strip(SeverityText(f))) == "critical")
  }

  ghost predicate SameFinding(h: Host, f: Finding, g: Finding)
    requires f.name.Some? && g.name.Some?
  {
    Strip(f.name.value) == Strip(g.name.value) && AdvisoryText(h, f) == AdvisoryText(h, g)
  }

  /** The exception is for the finding's package and advisory, names its severity or a blank one, and has not expired:
      its last day is today or later. */
  ghost predicate Excuses(h: Host, exc: Record, f: Finding)
    requires Usable(h, exc) && f.name.Some?
  {
    && Strip(exc["package"]) == Strip(f.name.value) && h.lower(Strip(exc["advisory"])) == AdvisoryText(h, f)
    && (h.lower(Strip(exc["severity"])) == "" || h.lower(Strip(exc["severity"])) == h.lower(Strip(SeverityText(f))))
    && h.parseDate(exc["expires_on"]).value >= h.today
  }

  ghost predicate IsFirstOf(h: Host, fs: seq<Finding>, n: nat)
    requires n < |fs| && fs[n].name.Some?
  {
    forall m :: 0 <= m < n && Counts(h, fs[m]) ==> !SameFinding(h, fs[m], fs[n])
  }

  /** All exceptions are usable and for different entries. */
  ghost predicate ExceptionsFit(h: Host, excs: seq<Record>) {
    && (forall n :: 0 <= n < |excs| ==> Usable(h, excs[n]))
    && (forall m, n :: 0 <= m < n < |excs| ==> !SameEntry(h, excs[m], excs[n]))
  }

  ghost predicate IsExcused(h: Host, excs: seq<Record>, f: Finding)
    requires ExceptionsFit(h, excs) && f.name.Some?
  {
    exists e :: 0 <= e < |excs| && Excuses(h, excs[e], f)
  }

  /** Every finding that counts has an advisory, and the first of each package and advisory is excused. */
  ghost predicate FindingsFit(h: Host, excs: seq<Record>, fs: seq<Finding>)
    requires ExceptionsFit(h, excs)
  {
    forall n :: 0 <= n < |fs| && Counts(h, fs[n]) ==>
                  AdvisoryText(h, fs[n]) != "" && (IsFirstOf(h, fs, n) ==> IsExcused(h, excs, fs[n]))
  }

  lemma UsableExact(h: Host, exc: Record)
    ensures Usable(h, exc) <==> Sound(h, exc)
    ensures Usable(h, exc) ==>
              && KeyOf(h, exc) == Key(Strip(exc["package"]), h.lower(Strip(exc["advisory"])))
              && EntryOf(h, exc) == Entry(h.lower(Strip(exc["severity"])), h.parseDate(exc["expires_on"]).value)
  {
    hide Strip;
  }

  lemma CountsExact(h: Host, f: Finding)
    ensures Counts(h, f) <==> Relevant(h, f)
    ensures f.name.Some? ==> FindingKey(h, f) == Key(Strip(f.name.value), AdvisoryText(h, f))
    ensures SeverityOf(h, f) == h.lower(Strip(SeverityText(f)))
  {
    hide Strip;
  }

  lemma ExceptionsFitExact(h: Host, excs: seq<Record>)
    ensures ExceptionsFit(h, excs) <==> ExceptionsHold(h, excs)
  {
    forall n | 0 <= n < |excs| { UsableExact(h, excs[n]); }
    hide Strip, Usable, Sound, KeyOf;
  }

  lemma ExcusedExact(h: Host, excs: seq<Record>, f: Finding)
    requires ExceptionsFit(h, excs) && f.name.Some?
    ensures IsExcused(h, excs, f) <==> Covered(h, excs, f)
  {
    forall n | 0 <= n < |excs| { UsableExact(h, excs[n]); }
    CountsExact(h, f);
    hide Strip, Usable, Sound, KeyOf, EntryOf, FindingKey, SeverityOf, AdvisoryText, SeverityText;
    forall e | 0 <= e < |excs|
      ensures Excuses(h, excs[e], f) <==> HasKey(h, excs[e], FindingKey(h, f)) && Permits(h, EntryOf(h, excs[e]), f)
    {}
  }

  lemma FirstExact(h: Host, fs: seq<Finding>, n: nat)
    requires n < |fs| && fs[n].name.Some?
    ensures IsFirstOf(h, fs, n) <==> FirstOfKey(h, fs, n)
  {
    forall m | 0 <= m <= n { CountsExact(h, fs[m]); }
    hide Strip, Counts, Relevant, FindingKey, AdvisoryText;
    assert forall m :: 0 <= m < n && Relevant(h, fs[m]) ==> fs[m].name.Some? by { CountsHaveNames(h, fs); }
  }

  lemma CountsHaveNames(h: Host, fs: seq<Finding>)
    ensures forall m :: 0 <= m < |fs| && Relevant(h, fs[m]) ==> fs[m].name.Some?
  {}

  lemma FindingsFitExact(h: Host, excs: seq<Record>, fs: seq<Finding>)
    requires ExceptionsFit(h, excs)
    ensures FindingsFit(h, excs, fs) <==> FindingsHold(h, excs, fs)
  {
    forall n | 0 <= n < |fs| { CountsExact(h, fs[n]); }
    CountsHaveNames(h, fs);
    hide Strip, Counts, Relevant, IsFirstOf, FirstOfKey, IsExcused, Covered, AdvisoryText, FindingKey, ExceptionsFit;
    forall n | 0 <= n < |fs| && Relevant(h, fs[n])
      ensures IsFirstOf(h, fs, n) <==> FirstOfKey(h, fs, n)
      ensures IsExcused(h, excs, fs[n]) <==> Covered(h, excs, fs[n])
    {
      FirstExact(h, fs, n);
      ExcusedExact(h, excs, fs[n]);
    }
  }

  /** Exit code 0, spelled out from the fields of the exceptions and the findings. */
  lemma AcceptsExact(h: Host, excs: seq<Record>, fs: seq<Finding>)
    ensures Accepts(h, excs, fs) <==> ExceptionsFit(h, excs) && FindingsFit(h, excs, fs)
  {
    ExceptionsFitExact(h, excs);
    if ExceptionsFit(h, excs) { FindingsFitExact(h, excs, fs); }
    hide ExceptionsHold, FindingsHold;
  }
}
