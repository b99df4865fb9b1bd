/** How the gate's answer depends on the order, the repetition and the severity of the findings. */
module AuditOrder {
  import opened Rows
  import opened AuditParser
  import opened AuditVulns
  import opened AuditGate

  /** Every finding the gate looks at is covered, not just the first one of its key. */
  ghost predicate AllCovered(h: Host, excs: seq<Record>, fs: seq<Finding>) {
    forall f :: f in fs && Relevant(h, f) ==> Named(h, f) && Covered(h, excs, f)
  }

  /** The findings of a key agree on their severity, or the exception for the key takes any. */
  ghost predicate SeveritiesAgree(h: Host, excs: seq<Record>, fs: seq<Finding>) {
    forall f, g :: f in fs && g in fs && Relevant(h, f) && Relevant(h, g) && FindingKey(h, f) == FindingKey(h, g) ==>
                     SeverityOf(h, f) == SeverityOf(h, g) || AnySeverity(h, excs, FindingKey(h, f))
  }

  ghost predicate AnySeverity(h: Host, excs: seq<Record>, key: Key) {
    forall e :: 0 <= e < |excs| && HasKey(h, excs[e], key) ==> EntryOf(h, excs[e]).severity == ""
  }

  lemma {:induction false} FirstExists(h: Host, fs: seq<Finding>, n: nat)
    requires n < |fs| && Relevant(h, fs[n])
    ensures exists m: nat :: m <= n && Relevant(h, fs[m]) && FindingKey(h, fs[m]) == FindingKey(h, fs[n])
                             && FirstOfKey(h, fs, m)
    decreases n
  {
    if FirstOfKey(h, fs, n) {
    } else {
      var m :| 0 <= m < n && Relevant(h, fs[m]) && FindingKey(h, fs[m]) == FindingKey(h, fs[n]);
      FirstExists(h, fs, m);
    }
  }

  lemma CoverageShared(h: Host, excs: seq<Record>, f: Finding, g: Finding)
    requires FindingKey(h, f) == FindingKey(h, g) && Covered(h, excs, f)
    requires SeverityOf(h, f) == SeverityOf(h, g) || AnySeverity(h, excs, FindingKey(h, f))
    ensures Covered(h, excs, g)
  {
    var e :| 0 <= e < |excs| && HasKey(h, excs[e], FindingKey(h, f)) && Permits(h, EntryOf(h, excs[e]), f);
    assert Permits(h, EntryOf(h, excs[e]), g);
  }

  /** With agreeing severities, looking only at the first finding of each key loses nothing. */
  lemma FirstIsEnough(h: Host, excs: seq<Record>, fs: seq<Finding>)
    requires SeveritiesAgree(h, excs, fs)
    ensures FindingsHold(h, excs, fs) <==> AllCovered(h, excs, fs)
  {
    hide Relevant, FindingKey, Covered, Permits;
    if FindingsHold(h, excs, fs) {
      forall f | f in fs && Relevant(h, f) ensures Named(h, f) && Covered(h, excs, f) {
        var n: nat :| n < |fs| && fs[n] == f;
        FirstExists(h, fs, n);
        var m: nat :| m <= n && Relevant(h, fs[m]) && FindingKey(h, fs[m]) == FindingKey(h, fs[n])
            && FirstOfKey(h, fs, m);
        assert fs[m] in fs;
        CoverageShared(h, excs, fs[m], f);
      }
    }
  }

  ghost predicate SameFindings(fs: seq<Finding>, gs: seq<Finding>) { forall f :: f in fs <==> f in gs }

  ghost predicate Reordered(fs: seq<Finding>, gs: seq<Finding>) { multiset(gs) == multiset(fs) }

  lemma ReorderedIsSame(fs: seq<Finding>, gs: seq<Finding>)
    requires Reordered(fs, gs)
    ensures SameFindings(fs, gs)
  {
    assert forall f :: f in fs <==> f in multiset(fs);
    assert forall f :: f in gs <==> f in multiset(gs);
  }

  // ---------------------------------------------------------------- accepted in every order, in some order

  lemma FrontMultiset(fs: seq<Finding>, n: nat)
    requires n < |fs|
    ensures multiset([fs[n]] + (fs[..n] + fs[n + 1..])) == multiset(fs)
  {
    assert fs == fs[..n] + [fs[n]] + fs[n + 1..];
  }

  lemma FrontHolds(h: Host, excs: seq<Record>, f: Finding, rest: seq<Finding>)
    requires FindingsHold(h, excs, [f] + rest)
    ensures Relevant(h, f) ==> Named(h, f) && Covered(h, excs, f)
  {
    hide Relevant, FindingKey, Covered, Named;
    var fs := [f] + rest;
    assert fs[0] == f && FirstOfKey(h, fs, 0);
  }

  lemma InFront(h: Host, excs: seq<Record>, fs: seq<Finding>, n: nat)
    requires n < |fs|
    requires forall gs :: Reordered(fs, gs) ==> Accepts(h, excs, gs)
    ensures Relevant(h, fs[n]) ==> Named(h, fs[n]) && Covered(h, excs, fs[n])
  {
    hide Relevant, FindingKey, Covered, Named, FindingsHold, ExceptionsHold;
    var rest := fs[..n] + fs[n + 1..];
    FrontMultiset(fs, n);
    assert Reordered(fs, [fs[n]] + rest) && Accepts(h, excs, [fs[n]] + rest);
    FrontHolds(h, excs, fs[n], rest);
  }

  lemma ReorderedSelf(fs: seq<Finding>)
    ensures Reordered(fs, fs)
  {}

  lemma AcceptedInEveryOrder(h: Host, excs: seq<Record>, fs: seq<Finding>)
    ensures (forall gs :: Reordered(fs, gs) ==> Accepts(h, excs, gs))
            <==> ExceptionsHold(h, excs) && AllCovered(h, excs, fs)
  {
    hide ExceptionsHold, Relevant, FindingKey, Covered, Named, FirstOfKey, Reordered;
    if forall gs :: Reordered(fs, gs) ==> Accepts(h, excs, gs) {
      ReorderedSelf(fs);
      forall n: nat | n < |fs| { InFront(h, excs, fs, n); }
    }
    if ExceptionsHold(h, excs) && AllCovered(h, excs, fs) {
      forall gs | Reordered(fs, gs) ensures Accepts(h, excs, gs) {
        ReorderedIsSame(fs, gs);
        assert AllCovered(h, excs, gs);
      }
    }
  }

  /** Every finding the gate looks at is named, and some finding of its key is covered. */
  ghost predicate KeysCovered(h: Host, excs: seq<Record>, fs: seq<Finding>) {
    forall f :: f in fs && Relevant(h, f) ==> Named(h, f) && KeyCovered(h, excs, fs, FindingKey(h, f))
  }

  ghost predicate KeyCovered(h: Host, excs: seq<Record>, fs: seq<Finding>, key: Key) {
    exists g :: g in fs && Relevant(h, g) && FindingKey(h, g) == key && Covered(h, excs, g)
  }

  /** The first finding of a key is the one that must be covered. */
  lemma AcceptedKeysCovered(h: Host, excs: seq<Record>, fs: seq<Finding>)
    requires FindingsHold(h, excs, fs)
    ensures KeysCovered(h, excs, fs)
  {
    hide Relevant, FindingKey, Covered;
    forall f | f in fs && Relevant(h, f) ensures Named(h, f) && KeyCovered(h, excs, fs, FindingKey(h, f)) {
      var n: nat :| n < |fs| && fs[n] == f;
      FirstExists(h, fs, n);
      var m: nat :| m <= n && Relevant(h, fs[m]) && FindingKey(h, fs[m]) == FindingKey(h, fs[n])
                    && FirstOfKey(h, fs, m);
      assert fs[m] in fs;
    }
  }

  lemma {:induction false} Partition(p: Finding -> bool, fs: seq<Finding>)
    ensures Reordered(fs, Filter(p, fs) + Filter(f => !p(f), fs))
  {
    if fs != [] {
      Partition(p, fs[1..]);
      assert fs == [fs[0]] + fs[1..];
    }
  }

  /** The covered findings first, the others behind: each of the others comes after one of its key. */
  lemma CoveredFirst(h: Host, excs: seq<Record>, fs: seq<Finding>) returns (gs: seq<Finding>)
    requires KeysCovered(h, excs, fs)
    ensures Reordered(fs, gs) && FindingsHold(h, excs, gs)
  {
    var p := (f: Finding) => Relevant(h, f) && Covered(h, excs, f);
    var front, back := Filter(p, fs), Filter(f => !p(f), fs);
    gs := front + back;
    Partition(p, fs);
    FilterIn(p, fs);
    FilterIn(f => !p(f), fs);
    hide Relevant, FindingKey, Covered, Named, Filter, Reordered;
    forall n | 0 <= n < |gs| && Relevant(h, gs[n])
      ensures Named(h, gs[n]) && (FirstOfKey(h, gs, n) ==> Covered(h, excs, gs[n]))
    {
      assert gs[n] in (if n < |front| then front else back);
      if !Covered(h, excs, gs[n]) {
        var g :| g in fs && Relevant(h, g) && FindingKey(h, g) == FindingKey(h, gs[n]) && Covered(h, excs, g);
        var m :| 0 <= m < |front| && front[m] == g;
        assert gs[m] == g;
        assert gs[n] !in front;
        assert n >= |front|;
      }
    }
  }

  lemma AcceptedInSomeOrder(h: Host, excs: seq<Record>, fs: seq<Finding>)
    ensures (exists gs :: Reordered(fs, gs) && Accepts(h, excs, gs))
            <==> ExceptionsHold(h, excs) && KeysCovered(h, excs, fs)
  {
    hide ExceptionsHold, FindingsHold, KeysCovered;
    if gs :| Reordered(fs, gs) && Accepts(h, excs, gs) {
      AcceptedKeysCovered(h, excs, gs);
      ReorderedIsSame(fs, gs);
      SameKeysCovered(h, excs, fs, gs);
    }
    if ExceptionsHold(h, excs) && KeysCovered(h, excs, fs) {
      var gs := CoveredFirst(h, excs, fs);
      assert Accepts(h, excs, gs);
    }
  }

  lemma SameKeysCovered(h: Host, excs: seq<Record>, fs: seq<Finding>, gs: seq<Finding>)
    requires SameFindings(fs, gs)
    ensures KeysCovered(h, excs, fs) <==> KeysCovered(h, excs, gs)
    ensures AllCovered(h, excs, fs) <==> AllCovered(h, excs, gs)
  {
    hide Relevant, FindingKey, Covered, Named;
    assert forall key :: KeyCovered(h, excs, fs, key) <==> KeyCovered(h, excs, gs, key);
  }

  lemma AllCoveredKeys(h: Host, excs: seq<Record>, fs: seq<Finding>)
    requires AllCovered(h, excs, fs)
    ensures KeysCovered(h, excs, fs)
  {
    hide Relevant, FindingKey, Covered, Named;
  }

  // ---------------------------------------------------------------- how the script ends, order by order

  /** The exceptions file parses and every severity is falsy or a string: the script does not raise. */
  ghost predicate Ends(text: string, fs: seq<Finding>) { !SomeBadItem(FileLines(text)) && !SomeNotText(fs) }

  lemma SameEnds(text: string, fs: seq<Finding>, gs: seq<Finding>)
    requires SameFindings(fs, gs)
    ensures Ends(text, fs) <==> Ends(text, gs)
  {
    if n :| 0 <= n < |fs| && fs[n].severity.NotText? { assert fs[n] in gs; }
    if n :| 0 <= n < |gs| && gs[n].severity.NotText? { assert gs[n] in fs; }
  }

  /** Exit code 0 in every order: every finding the gate looks at is covered. */
  lemma EveryOrder(h: Host, text: string, fs: seq<Finding>)
    ensures (forall gs :: Reordered(fs, gs) ==> Verdict(h, text, gs) == Exit(0))
            <==> Ends(text, fs) && ExceptionsHold(h, RecordsOf(FileLines(text)))
                 && AllCovered(h, RecordsOf(FileLines(text)), fs)
  {
    hide FileLines, RecordsOf, Accepts, AllCovered, ExceptionsHold;
    AcceptedInEveryOrder(h, RecordsOf(FileLines(text)), fs);
    forall gs | Reordered(fs, gs) ensures Ends(text, fs) <==> Ends(text, gs) {
      ReorderedIsSame(fs, gs);
      SameEnds(text, fs, gs);
    }
    assert Reordered(fs, fs);
  }

  /** Exit code 0 in some order: of every key the gate looks at, some finding is covered. */
  lemma SomeOrder(h: Host, text: string, fs: seq<Finding>)
    ensures (exists gs :: Reordered(fs, gs) && Verdict(h, text, gs) == Exit(0))
            <==> Ends(text, fs) && ExceptionsHold(h, RecordsOf(FileLines(text)))
                 && KeysCovered(h, RecordsOf(FileLines(text)), fs)
  {
    hide FileLines, RecordsOf, Accepts, KeysCovered, ExceptionsHold;
    AcceptedInSomeOrder(h, RecordsOf(FileLines(text)), fs);
    forall gs | Reordered(fs, gs) ensures Ends(text, fs) <==> Ends(text, gs) {
      ReorderedIsSame(fs, gs);
      SameEnds(text, fs, gs);
    }
  }

  /** The order, and the repetition, of the findings cannot change how the script ends: it raises anyway, the
      exceptions are rejected anyway, every finding is covered, or some key has no covered finding at all. */
  ghost predicate OrderProof(h: Host, text: string, fs: seq<Finding>) {
    var excs := RecordsOf(FileLines(text));
    !Ends(text, fs) || !ExceptionsHold(h, excs) || AllCovered(h, excs, fs) || !KeysCovered(h, excs, fs)
  }

  lemma OrderProofHolds(h: Host, text: string, fs: seq<Finding>, gs: seq<Finding>)
    requires OrderProof(h, text, fs) && SameFindings(fs, gs)
    ensures Verdict(h, text, gs) == Verdict(h, text, fs)
  {
    var excs := RecordsOf(FileLines(text));
    hide FileLines, RecordsOf, AllCovered, KeysCovered, FindingsHold, ExceptionsHold;
    SameEnds(text, fs, gs);
    SameKeysCovered(h, excs, fs, gs);
    forall x | x == fs || x == gs
      ensures AllCovered(h, excs, x) ==> FindingsHold(h, excs, x)
      ensures FindingsHold(h, excs, x) ==> KeysCovered(h, excs, x)
    {
      if AllCovered(h, excs, x) { CoveredHolds(h, excs, x); }
      if FindingsHold(h, excs, x) { AcceptedKeysCovered(h, excs, x); }
    }
  }

  lemma CoveredHolds(h: Host, excs: seq<Record>, fs: seq<Finding>)
    requires AllCovered(h, excs, fs)
    ensures FindingsHold(h, excs, fs)
  {
    hide Relevant, FindingKey, Covered, Named, FirstOfKey;
  }

  /** Reordering the findings leaves how the script ends unchanged exactly when the order is out of play, and then
      repeating them leaves it unchanged too. */
  lemma OrderIsExact(h: Host, text: string, fs: seq<Finding>)
    ensures (forall gs :: Reordered(fs, gs) ==> Verdict(h, text, gs) == Verdict(h, text, fs))
            <==> OrderProof(h, text, fs)
    ensures (forall gs :: SameFindings(fs, gs) ==> Verdict(h, text, gs) == Verdict(h, text, fs))
            <==> OrderProof(h, text, fs)
  {
    hide Verdict, Ends, ExceptionsHold, AllCovered, KeysCovered, SameFindings, Reordered;
    EveryOrder(h, text, fs);
    SomeOrder(h, text, fs);
    forall gs | Reordered(fs, gs) ensures SameFindings(fs, gs) { ReorderedIsSame(fs, gs); }
    if OrderProof(h, text, fs) {
      forall gs | SameFindings(fs, gs) ensures Verdict(h, text, gs) == Verdict(h, text, fs) {
        OrderProofHolds(h, text, fs, gs);
      }
    }
  }

  /** In particular when the findings of each key agree on their severity, or its exception takes any. */
  lemma OrderIsIrrelevant(h: Host, text: string, fs: seq<Finding>, gs: seq<Finding>)
    requires SeveritiesAgree(h, RecordsOf(FileLines(text)), fs) && SameFindings(fs, gs)
    ensures Verdict(h, text, fs) == Verdict(h, text, gs)
  {
    hide FileLines, RecordsOf, SeveritiesAgree, Verdict;
    if KeysCovered(h, RecordsOf(FileLines(text)), fs) { AgreeingKeys(h, RecordsOf(FileLines(text)), fs); }
    OrderProofHolds(h, text, fs, gs);
  }

  lemma AgreeingKeys(h: Host, excs: seq<Record>, fs: seq<Finding>)
    requires SeveritiesAgree(h, excs, fs) && KeysCovered(h, excs, fs)
    ensures AllCovered(h, excs, fs)
  {
    hide Relevant, FindingKey, Covered, Named, AnySeverity;
    forall f | f in fs && Relevant(h, f) ensures Covered(h, excs, f) {
      var g :| g in fs && Relevant(h, g) && FindingKey(h, g) == FindingKey(h, f) && Covered(h, excs, g);
      CoverageShared(h, excs, g, f);
    }
  }

  // ---------------------------------------------------------------- the entries of the JSON

  /** The same entries in each section, in whatever order and however often. */
  ghost predicate SameSections(a: Json, b: Json)
    requires a.Obj? && b.Obj?
  {
    && (forall e :: e in Section(a, "advisories") <==> e in Section(b, "advisories"))
    && (forall e :: e in Section(a, "vulnerabilities") <==> e in Section(b, "vulnerabilities"))
  }

  /** The finding comes from some entry. */
  ghost predicate Yields(show: Json -> string, data: Json, f: Finding)
    requires data.Obj?
  {
    || (exists e :: e in Section(data, "advisories") && AdvisoryFinding(show, e.1) == Some(f))
    || (exists e :: e in Section(data, "vulnerabilities") && VulnFindings(show, e).Some?
                    && f in VulnFindings(show, e).value)
  }

  lemma {:induction false} AdvisoriesYield(show: Json -> string, entries: seq<(string, Json)>)
    ensures AllAdvisories(show, entries).None? <==> exists e :: e in entries && AdvisoryFinding(show, e.1).None?
    ensures AllAdvisories(show, entries).Some? ==>
              forall f :: f in AllAdvisories(show, entries).value
                          <==> exists e :: e in entries && AdvisoryFinding(show, e.1) == Some(f)
  {
    hide AdvisoryFinding;
    if entries != [] {
      AdvisoriesYield(show, entries[1..]);
      assert entries == [entries[0]] + entries[1..];
      assert entries[0] in entries;
    }
  }

  lemma {:induction false} VulnsYield(show: Json -> string, entries: seq<(string, Json)>)
    ensures AllVulns(show, entries).None? <==> exists e :: e in entries && VulnFindings(show, e).None?
    ensures AllVulns(show, entries).Some? ==>
              forall f :: f in AllVulns(show, entries).value
                          <==> exists e :: e in entries && VulnFindings(show, e).Some?
                                           && f in VulnFindings(show, e).value
  {
    hide VulnFindings;
    if entries != [] {
      VulnsYield(show, entries[1..]);
      assert entries == [entries[0]] + entries[1..];
      assert entries[0] in entries;
    }
  }

  lemma VulnsYieldExactly(show: Json -> string, data: Json)
    requires data.Obj?
    ensures Vulns(show, data).None?
            <==> || (exists e :: e in Section(data, "advisories") && AdvisoryFinding(show, e.1).None?)
                 || (exists e :: e in Section(data, "vulnerabilities") && VulnFindings(show, e).None?)
    ensures Vulns(show, data).Some? ==> forall f :: f in Vulns(show, data).value <==> Yields(show, data, f)
  {
    AdvisoriesYield(show, Section(data, "advisories"));
    VulnsYield(show, Section(data, "vulnerabilities"));
    hide AdvisoryFinding, VulnFindings, Section, AllAdvisories, AllVulns;
  }

  /** Reordering the entries of the audit's sections never changes how the script ends, when the severities of
      each key agree. */
  lemma EntryOrderIsIrrelevant(h: Host, text: string, a: Json, b: Json)
    requires a.Obj? && b.Obj? && SameSections(a, b)
    requires Vulns(h.show, a).Some? ==> SeveritiesAgree(h, RecordsOf(FileLines(text)), Vulns(h.show, a).value)
    ensures AuditVerdict(h, text, a) == AuditVerdict(h, text, b)
  {
    hide Vulns, Section, SeveritiesAgree, FileLines, RecordsOf, Verdict, AdvisoryFinding, VulnFindings;
    VulnsYieldExactly(h.show, a);
    VulnsYieldExactly(h.show, b);
    assert forall f :: Yields(h.show, a, f) <==> Yields(h.show, b, f);
    if Vulns(h.show, a).Some? { OrderIsIrrelevant(h, text, Vulns(h.show, a).value, Vulns(h.show, b).value); }
  }

  // ---------------------------------------------------------------- findings the gate skips

  /** The scan as a fold over the keys met so far. */
  ghost predicate HoldFrom(h: Host, excs: seq<Record>, met: set<Key>, fs: seq<Finding>)
    decreases fs
  {
    fs == []
    || (if !Relevant(h, fs[0]) then HoldFrom(h, excs, met, fs[1..])
        else
          && Named(h, fs[0])
          && (FindingKey(h, fs[0]) in met || Covered(h, excs, fs[0]))
          && HoldFrom(h, excs, met + {FindingKey(h, fs[0])}, fs[1..]))
  }

  lemma {:induction false} HoldFromIs(h: Host, excs: seq<Record>, met: set<Key>, fs: seq<Finding>)
    ensures HoldFrom(h, excs, met, fs)
            <==> forall n :: 0 <= n < |fs| && Relevant(h, fs[n]) ==>
                   Named(h, fs[n])
                   && (FirstOfKey(h, fs, n) && FindingKey(h, fs[n]) !in met ==> Covered(h, excs, fs[n]))
    decreases fs
  {
    hide Relevant, FindingKey, Covered, Named;
    if fs != [] {
      var rest := fs[1..];
      var next := if Relevant(h, fs[0]) then met + {FindingKey(h, fs[0])} else met;
      HoldFromIs(h, excs, next, rest);
      assert FirstOfKey(h, fs, 0);
      forall n | 0 <= n < |rest|
        ensures FirstOfKey(h, rest, n) && FindingKey(h, rest[n]) !in next
                <==> FirstOfKey(h, fs, n + 1) && FindingKey(h, fs[n + 1]) !in met
      {
        FirstInRest(h, fs, n);
      }
      assert forall n :: 1 <= n < |fs| ==> fs[n] == rest[n - 1];
    }
  }

  lemma FirstInRest(h: Host, fs: seq<Finding>, n: nat)
    requires n + 1 < |fs|
    ensures FirstOfKey(h, fs, n + 1)
            <==> FirstOfKey(h, fs[1..], n) && !(Relevant(h, fs[0]) && FindingKey(h, fs[0]) == FindingKey(h, fs[n + 1]))
  {
    hide Relevant, FindingKey;
    assert forall m :: 0 <= m < |fs[1..]| ==> fs[1..][m] == fs[m + 1];
    assert FirstOfKey(h, fs, n + 1) ==>
      forall m :: 0 <= m < n && Relevant(h, fs[1..][m]) ==> FindingKey(h, fs[m + 1]) != FindingKey(h, fs[n + 1]);
  }

  lemma {:induction false} HoldFromFilters(h: Host, excs: seq<Record>, met: set<Key>, fs: seq<Finding>)
    ensures HoldFrom(h, excs, met, fs) <==> HoldFrom(h, excs, met, Filter(f => Relevant(h, f), fs))
    decreases fs
  {
    hide Relevant, FindingKey, Covered, Named;
    if fs != [] {
      HoldFromFilters(h, excs, if Relevant(h, fs[0]) then met + {FindingKey(h, fs[0])} else met, fs[1..]);
    }
  }

  lemma SkippedNeverCount(h: Host, excs: seq<Record>, fs: seq<Finding>)
    ensures Accepts(h, excs, fs) <==> Accepts(h, excs, Filter(f => Relevant(h, f), fs))
  {
    HoldFromIs(h, excs, {}, fs);
    HoldFromIs(h, excs, {}, Filter(f => Relevant(h, f), fs));
    HoldFromFilters(h, excs, {}, fs);
  }

  /** A finding the gate does not pass over: it looks at it, or stops at its severity. */
  predicate Matters(h: Host, f: Finding) { f.severity.NotText? || Relevant(h, f) }

  /** Findings the gate skips never mask one it looks at: dropping all of them changes nothing, as long as those
      whose severity stops the script stay, which it reads before it looks at the name. */
  lemma SkippedFindingsNeverMatter(h: Host, text: string, fs: seq<Finding>)
    ensures Verdict(h, text, fs) == Verdict(h, text, Filter(f => Matters(h, f), fs))
  {
    var matters, relevant := (f: Finding) => Matters(h, f), (f: Finding) => Relevant(h, f);
    var kept := Filter(matters, fs);
    FilterIn(matters, fs);
    hide FileLines, RecordsOf, Filter, Relevant;
    if n :| 0 <= n < |fs| && fs[n].severity.NotText? { assert fs[n] in kept; }
    if n :| 0 <= n < |kept| && kept[n].severity.NotText? { assert kept[n] in fs; }
    if !SomeNotText(fs) {
      forall f | f in fs ensures matters(f) == relevant(f) { assert !f.severity.NotText?; }
      FilterEq(matters, relevant, fs);
      SkippedNeverCount(h, RecordsOf(FileLines(text)), fs);
    }
  }

  /** The order matters when severities disagree: the first finding of a key hides the second. */
  lemma OrderCanMatter(h: Host, exc: Record, f: Finding, g: Finding)
    requires Sound(h, exc) && DateOf(h, exc).value >= h.today
    requires Relevant(h, f) && Relevant(h, g) && FindingKey(h, f) == FindingKey(h, g) == KeyOf(h, exc)
    requires EntryOf(h, exc).severity == SeverityOf(h, f) != SeverityOf(h, g)
    ensures Accepts(h, [exc], [f, g]) && !Accepts(h, [exc], [g, f])
  {
    assert HasKey(h, [exc][0], FindingKey(h, f));
    assert Covered(h, [exc], f) && !Covered(h, [exc], g);
    assert FirstOfKey(h, [g, f], 0) && [g, f][0] == g;
    assert !FirstOfKey(h, [f, g], 1) by { assert [f, g][0] == f && [f, g][1] == g; }
    assert [f, g][0] == f && [f, g][1] == g;
  }

  /** A concrete exception and two findings for which it does. */
  lemma OrderDoesMatter(h: Host, exc: Record, f: Finding, g: Finding)
    requires h == Host(s => s, s => Some(1), 0, v => "")
    requires exc == map["package" := "p", "advisory" := "a", "severity" := "high", "mitigation" := "m",
                        "expires_on" := "d"]
    requires f == Finding(Some("p"), Said("high"), Some("a"))
    requires g == Finding(Some("p"), Said("critical"), Some("a"))
    ensures Accepts(h, [exc], [f, g]) && !Accepts(h, [exc], [g, f])
  {
    StripIdentity("p");
    StripIdentity("a");
    StripIdentity("high");
    StripIdentity("critical");
    hide Strip;
    assert KeyOf(h, exc) == Key("p", "a") == FindingKey(h, f) == FindingKey(h, g);
    assert SeverityOf(h, f) == "high" == EntryOf(h, exc).severity;
    assert SeverityOf(h, g) == "critical" && "critical"[0] != "high"[0];
    OrderCanMatter(h, exc, f, g);
  }
}
