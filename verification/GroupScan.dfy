/** The row callback of the groups edge: the SQL puts the join's account id in front of the selected group
    columns, and the callback reads that id and the group's own id by position. */
module GroupScan {
  import opened Rows
  import opened Schema
  import opened Columns
  import opened Codec
  import opened CodecReads
  import opened Eager
  import opened Loaders

  /** All group columns, the id first. */
  function GroupColumns(): seq<Column> { [Id] + BesidesId() }

  function BesidesId(): seq<Column> {
    [CreatedAt, UpdatedAt, DeletedAt, Name, OfGroup(Description), RateMultiplier, OfGroup(IsExclusive), Status,
     Platform, OfGroup(SubscriptionType), OfGroup(DailyLimitUsd), OfGroup(WeeklyLimitUsd), OfGroup(MonthlyLimitUsd),
     OfGroup(DefaultValidityDays), OfGroup(AllowImageGeneration), OfGroup(ImageRateIndependent),
     OfGroup(ImageRateMultiplier), OfGroup(ImagePrice1k), OfGroup(ImagePrice2k), OfGroup(ImagePrice4k),
     OfGroup(VideoRateIndependent), OfGroup(VideoRateMultiplier), OfGroup(VideoPrice480p), OfGroup(VideoPrice720p),
     OfGroup(VideoPrice1080p), OfGroup(ClaudeCodeOnly), OfGroup(FallbackGroupId),
     OfGroup(FallbackGroupIdOnInvalidRequest), OfGroup(ModelRouting), OfGroup(ModelRoutingEnabled),
     OfGroup(McpXmlInject), OfGroup(SupportedModelScopes), OfGroup(SortOrder), OfGroup(AllowMessagesDispatch),
     OfGroup(RequireOauthOnly), OfGroup(RequirePrivacySet), OfGroup(DefaultMappedModel),
     OfGroup(MessagesDispatchModelConfig), OfGroup(RpmLimit)]
  }

  /** The columns of the joined query for a select list. */
  function JoinedColumns(fields: seq<Column>): seq<Column> { [AccountId] + IdFirst(fields, GroupColumns(), Id) }

  function WrappedHolders(columns: seq<Column>): seq<Holder>
    requires columns != []
  {
    [Holder(NullInt64, Null)] + EmptyHolders(Groups, columns[1..])
  }

  /** The wrapped `ScanValues`: a holder for the account id, then the group's own. */
  method WrappedScan(columns: seq<Column>) returns (values: seq<Holder>)
    requires columns != []
    ensures values == WrappedHolders(columns)
  {
    var rest := ScanValues(Groups, columns[1..]);
    values := [Holder(NullInt64, Null)] + rest[..];
  }

  /** The driver fills the holders; each keeps its type. */
  ghost predicate FilledFrom(before: seq<Holder>, values: seq<Holder>) {
    |values| == |before|
    && forall i :: 0 <= i < |before| ==> values[i].kind == before[i].kind && Fits(values[i].kind, values[i].cell)
  }

  /** The number in a `sql.NullInt64`, zero for NULL; None where the type assertion panics. */
  function Number(h: Holder): Option<int> {
    if h.kind != NullInt64 then None else Some(if h.cell.Int? then h.cell.i else 0)
  }

  /** What one row tells: the account's id, the group's id, and the group read from the rest. */
  datatype JoinedRow = JoinedRow(out: int, id: int, group: Assigned)

  /** The wrapped `Assign` for a group seen for the first time; None where it panics. */
  function ReadJoined(coder: Coder, columns: seq<Column>, values: seq<Holder>): Option<JoinedRow> {
    if columns == [] || |values| < 2 || Number(values[0]).None? || Number(values[1]).None? then None
    else if |values| < |columns|
    then Some(JoinedRow(Number(values[0]).value, Number(values[1]).value, Blank.(err := Some(LengthMismatch))))
    else Some(JoinedRow(Number(values[0]).value, Number(values[1]).value,
                        AssignFrom(coder, Groups, Blank, columns[1..], values[1..])))
  }

  lemma IdComesOnce()
    ensures Id !in BesidesId()
  {}

  /** The id is the second column of every select list, and is read only there. */
  lemma SecondColumnIsId(fields: seq<Column>)
    ensures var columns := JoinedColumns(fields); |columns| >= 2 && columns[1] == Id && Id !in columns[2..]
  {
    IdComesOnce();
    WithoutKeeps(fields, Id);
    hide BesidesId;
    var rest := IdFirst(fields, GroupColumns(), Id);
    assert JoinedColumns(fields)[1] == rest[0] && JoinedColumns(fields)[2..] == rest[1..];
    if fields != [] { assert rest[1..] == Without(fields, Id); }
  }

  /** A field stays while other columns are assigned. */
  lemma {:induction false} AssignLeaves(coder: Coder, t: Table, a: Assigned, columns: seq<Column>, values: seq<Holder>,
                                        c: Column)
    requires |columns| <= |values| && c !in columns && c in a.fields
    ensures var b := AssignFrom(coder, t, a, columns, values); c in b.fields && b.fields[c] == a.fields[c]
    decreases columns
  {
    hide AssignOne;
    if columns != [] && a.err.None? {
      AssignLeaves(coder, t, Step(coder, t, a, columns[0], values[0]), columns[1..], values[1..], c);
    }
  }

  /** For every select list of the group query and everything the driver can scan: neither type assertion
      panics, the group's id is the id of the entity assigned from the rest, even when that ends in an error,
      and the only error is JSON that does not decode. */
  lemma JoinedRowCarriesId(coder: Coder, fields: seq<Column>, values: seq<Holder>)
    requires FilledFrom(WrappedHolders(JoinedColumns(fields)), values)
    ensures var r := ReadJoined(coder, JoinedColumns(fields), values);
            && r.Some?
            && r.value.out == (if values[0].cell.Int? then values[0].cell.i else 0)
            && Id in r.value.group.fields && r.value.group.fields[Id] == Of(Int(r.value.id))
            && (r.value.group.err.Some? ==> r.value.group.err.value.BadJson?)
  {
    hide JoinedColumns, WrappedHolders, Fits, AssignFrom, Step, GroupColumns;
    var columns := JoinedColumns(fields);
    SecondColumnIsId(fields);
    WrappedIsScan(columns, values);
    IdStep(coder, values[1]);
    var rest, scanned := columns[1..], values[1..];
    OnlyJsonFails(coder, Groups, Blank, rest, scanned);
    AssignStep(coder, rest, scanned);
    AssignLeaves(coder, Groups, Step(coder, Groups, Blank, Id, scanned[0]), rest[1..], scanned[1..], Id);
  }

  lemma AssignStep(coder: Coder, columns: seq<Column>, values: seq<Holder>)
    requires columns != [] && |columns| <= |values|
    ensures AssignFrom(coder, Groups, Blank, columns, values)
         == AssignFrom(coder, Groups, Step(coder, Groups, Blank, columns[0], values[0]), columns[1..], values[1..])
  {}

  lemma IdStep(coder: Coder, h: Holder)
    requires h.kind == NullInt64
    ensures Step(coder, Groups, Blank, Id, h) == Assigned(map[Id := Of(Int(Number(h).value))], map[], None)
  {}

  /** Behind the account id, the wrapped scan is the group's own. */
  lemma WrappedIsScan(columns: seq<Column>, values: seq<Holder>)
    requires |columns| >= 2 && columns[1] == Id && FilledFrom(WrappedHolders(columns), values)
    ensures |values| == |columns| && ScannedFrom(Groups, columns[1..], values[1..])
    ensures values[0].kind == values[1].kind == NullInt64 && Fits(NullInt64, values[0].cell)
  {
    var rest, before := columns[1..], WrappedHolders(columns);
    assert before[1..] == EmptyHolders(Groups, rest) && Groups.Kind(Id) == NullInt64;
    hide Fits, AccountKind, AccountGroupKind, GroupKind;
    forall i | 0 <= i < |rest|
      ensures values[1..][i].kind == Groups.Kind(rest[i]) && Fits(values[1..][i].kind, values[1..][i].cell)
    {
      assert values[1..][i] == values[i + 1] && before[i + 1] == before[1..][i];
    }
  }

  // ---------------------------------------------------------------- the rows of the join, one after another

  /** The pair one scanned row stands for, as far as the loader looks at it. */
  function PairOf(values: seq<Holder>): Linked
    requires |values| >= 2 && Number(values[0]).Some? && Number(values[1]).Some?
  {
    Linked(Number(values[0]).value, map["id" := Int(Number(values[1]).value)])
  }

  ghost predicate AllFilled(fields: seq<Column>, raws: seq<seq<Holder>>) {
    forall k :: 0 <= k < |raws| ==> FilledFrom(WrappedHolders(JoinedColumns(fields)), raws[k])
  }

  lemma FilledNumbers(fields: seq<Column>, values: seq<Holder>)
    requires FilledFrom(WrappedHolders(JoinedColumns(fields)), values)
    ensures |values| >= 2 && Number(values[0]).Some? && Number(values[1]).Some?
  {
    SecondColumnIsId(fields);
    hide JoinedColumns;
    WrappedIsScan(JoinedColumns(fields), values);
  }

  ghost function Pairs(fields: seq<Column>, raws: seq<seq<Holder>>): (r: seq<Linked>)
    requires AllFilled(fields, raws)
    ensures |r| == |raws|
  {
    if raws == [] then []
    else
      FilledNumbers(fields, raws[|raws| - 1]);
      Pairs(fields, raws[..|raws| - 1]) + [PairOf(raws[|raws| - 1])]
  }

  /** The groups read have, in order, the ids of these rows. */
  ghost predicate HaveIds(groups: seq<Assigned>, rows: seq<Row>) {
    |groups| == |rows|
    && forall g :: 0 <= g < |groups| ==> HasId(groups[g], rows[g])
  }

  ghost predicate HasId(group: Assigned, row: Row) {
    Id in group.fields && group.fields[Id] == Of(Int(IntAt(row, "id")))
  }

  /** Where the scan stands after n pairs: the groups read so far, and the parents noted for each id. */
  ghost predicate ScannedTo(stream: seq<Linked>, n: nat, byID: map<int, nat>, groups: seq<Assigned>,
                            nids: map<int, set<nat>>)
  {
    n <= |stream| && HaveIds(groups, FirstSeen(stream[..n], {})) && Recorded(stream, n, byID, nids)
  }

  lemma PairStep(stream: seq<Linked>, n: nat, byID: map<int, nat>, groups: seq<Assigned>, nids: map<int, set<nat>>,
                 group: Assigned)
    requires n < |stream| && ScannedTo(stream, n, byID, groups, nids) && stream[n].out in byID
    requires HasId(group, stream[n].row)
    ensures var id, parent := IntAt(stream[n].row, "id"), {byID[stream[n].out]};
            if id !in nids then ScannedTo(stream, n + 1, byID, groups + [group], nids[id := parent])
            else ScannedTo(stream, n + 1, byID, groups, nids[id := nids[id] + parent])
  {
    RecordedKeys(stream, n, byID, nids);
    hide Recorded, FirstSeen, HasId;
    FirstSeenSnoc(stream, n, nids.Keys);
    RecordedStep(stream, n, byID, nids);
    assert {} + {byID[stream[n].out]} == {byID[stream[n].out]};
  }

  /** What the callback reads of the n-th row is the n-th pair. */
  lemma ReadsPair(coder: Coder, fields: seq<Column>, raws: seq<seq<Holder>>, n: nat)
    requires AllFilled(fields, raws) && n < |raws|
    ensures var r, pair := ReadJoined(coder, JoinedColumns(fields), raws[n]), Pairs(fields, raws)[n];
            && r.Some? && r.value.out == pair.out && r.value.id == IntAt(pair.row, "id")
            && HasId(r.value.group, pair.row)
            && (r.value.group.err.Some? ==> r.value.group.err.value.BadJson?)
  {
    PairsAt(fields, raws, n);
    JoinedRowCarriesId(coder, fields, raws[n]);
    ReadNumbers(coder, JoinedColumns(fields), raws[n]);
  }

  lemma ReadNumbers(coder: Coder, columns: seq<Column>, values: seq<Holder>)
    requires ReadJoined(coder, columns, values).Some?
    ensures |values| >= 2 && Number(values[0]).Some? && Number(values[1]).Some?
    ensures var r := ReadJoined(coder, columns, values).value;
            PairOf(values).out == r.out && IntAt(PairOf(values).row, "id") == r.id
  {}

  lemma RecordedKeys(stream: seq<Linked>, n: nat, byID: map<int, nat>, nids: map<int, set<nat>>)
    requires n <= |stream| && Recorded(stream, n, byID, nids)
    ensures forall id :: id in nids.Keys <==> exists k :: 0 <= k < n && IntAt(stream[k].row, "id") == id
  {}

  /** The wrapped callbacks over all rows: `nids` records the parents of every id read, one group is assigned an
      id, in order of first appearance, and nothing panics; scanning stops only at JSON that does not decode. */
  method ScanJoined(coder: Coder, fields: seq<Column>, raws: seq<seq<Holder>>, byID: map<int, nat>)
    returns (groups: seq<Assigned>, nids: map<int, set<nat>>, err: Option<AssignError>)
    requires AllFilled(fields, raws)
    requires forall k :: 0 <= k < |raws| ==> Pairs(fields, raws)[k].out in byID
    ensures err.Some? ==> err.value.BadJson?
    ensures err.None? ==> Recorded(Pairs(fields, raws), |raws|, byID, nids)
    ensures err.None? ==> HaveIds(groups, FirstSeen(Pairs(fields, raws), {}))
  {
    groups, nids, err := [], map[], None;
    ghost var stream := Pairs(fields, raws);
    assert ScannedTo(stream, 0, byID, groups, nids) && stream[..|raws|] == stream;
    hide JoinedColumns, WrappedHolders, ReadJoined, Recorded, FirstSeen, Pairs, FilledFrom, HaveIds;
    for n := 0 to |raws|
      invariant err.None? && ScannedTo(stream, n, byID, groups, nids)
    {
      ReadsPair(coder, fields, raws, n);
      var row := ReadJoined(coder, JoinedColumns(fields), raws[n]).value;
      PairStep(stream, n, byID, groups, nids, row.group);
      if row.id !in nids {
        if row.group.err.Some? { return groups, nids, row.group.err; }
        groups := groups + [row.group];
        nids := nids[row.id := {byID[row.out]}];
      } else {
        nids := nids[row.id := nids[row.id] + {byID[row.out]}];
      }
    }
  }

  lemma {:induction false} PairsAt(fields: seq<Column>, raws: seq<seq<Holder>>, n: nat)
    requires AllFilled(fields, raws) && n < |raws|
    ensures |raws[n]| >= 2 && Number(raws[n][0]).Some? && Number(raws[n][1]).Some?
    ensures Pairs(fields, raws)[n] == PairOf(raws[n])
  {
    FilledNumbers(fields, raws[n]);
    if n < |raws| - 1 { PairsAt(fields, raws[..|raws| - 1], n); }
  }
}
