/** The row codec: the holders a scan allocates, and the entity fields they are assigned to. */
module Codec {
  import opened Rows
  import opened Columns

  /** The Go types `scanValues` allocates. */
  datatype Kind = NullInt64 | NullString | NullTime | NullBool | NullFloat64 | NullScanner | RawBytes | UnknownType

  /** One allocated holder and what the driver scanned into it; Null until then. */
  datatype Holder = Holder(kind: Kind, cell: Cell)

  /** How `assignValues` treats a valid holder, and what it does with NULL. */
  datatype Style = Always | WhenValid | Nillable | Document

  datatype Rule = Rule(kind: Kind, style: Style)

  /** The generated entities, each with the switch of `scanValues` and the switch of `assignValues`. */
  datatype Table = Accounts | AccountGroups | Groups {
    function Kind(c: Column): Kind {
      match this
      case Accounts => AccountKind(c)
      case AccountGroups => AccountGroupKind(c)
      case Groups => GroupKind(c)
    }

    function Rule(c: Column): Option<Rule> {
      match this
      case Accounts => AccountRule(c)
      case AccountGroups => AccountGroupRule(c)
      case Groups => GroupRule(c)
    }
  }

  datatype AssignError = LengthMismatch | UnexpectedType(column: Column) | BadJson(column: Column)

  predicate Fits(kind: Kind, cell: Cell) {
    cell.Null? || match kind
                  case NullInt64 => cell.Int?
                  case NullString => cell.Text?
                  case NullTime => cell.Time?
                  case NullBool => cell.Flag?
                  case NullFloat64 => cell.Float?
                  case NullScanner => cell.Decimal?
                  case RawBytes => cell.Blob?
                  case UnknownType => true
  }

  // ---------------------------------------------------------------- the account tables

  /** The cases of `scanValues`. */
  function AccountKind(c: Column): Kind {
    match c
    case UpstreamCostMultiplier => NullScanner
    case Credentials | Extra => RawBytes
    case AutoPauseOnExpired | Schedulable => NullBool
    case RateMultiplier => NullFloat64
    case Id | ProxyId | Concurrency | LoadFactor | Priority | UpstreamCostMultiplierChangeId
      | CurrentFinanceProfileId => NullInt64
    case Name | Notes | Platform | Type | UpstreamCostMultiplierSource | Status | ErrorMessage
      | TempUnschedulableReason | SessionWindowStatus => NullString
    case CreatedAt | UpdatedAt | DeletedAt | UpstreamCostMultiplierUpdatedAt | LastUsedAt | ExpiresAt | RateLimitedAt
      | RateLimitResetAt | OverloadUntil | TempUnschedulableUntil | SessionWindowStart | SessionWindowEnd => NullTime
    case _ => UnknownType
  }

  /** The cases of `assignValues`: the holder type each asserts, and what it assigns. */
  function AccountRule(c: Column): Option<Rule> {
    match c
    case Id => Some(Rule(NullInt64, Always))
    case CreatedAt => Some(Rule(NullTime, WhenValid))
    case UpdatedAt => Some(Rule(NullTime, WhenValid))
    case DeletedAt => Some(Rule(NullTime, Nillable))
    case Name => Some(Rule(NullString, WhenValid))
    case Notes => Some(Rule(NullString, Nillable))
    case Platform => Some(Rule(NullString, WhenValid))
    case Type => Some(Rule(NullString, WhenValid))
    case Credentials => Some(Rule(RawBytes, Document))
    case Extra => Some(Rule(RawBytes, Document))
    case ProxyId => Some(Rule(NullInt64, Nillable))
    case Concurrency => Some(Rule(NullInt64, WhenValid))
    case LoadFactor => Some(Rule(NullInt64, Nillable))
    case Priority => Some(Rule(NullInt64, WhenValid))
    case RateMultiplier => Some(Rule(NullFloat64, WhenValid))
    case UpstreamCostMultiplier => Some(Rule(NullScanner, Nillable))
    case UpstreamCostMultiplierUpdatedAt => Some(Rule(NullTime, Nillable))
    case UpstreamCostMultiplierChangeId => Some(Rule(NullInt64, Nillable))
    case UpstreamCostMultiplierSource => Some(Rule(NullString, WhenValid))
    case CurrentFinanceProfileId => Some(Rule(NullInt64, Nillable))
    case Status => Some(Rule(NullString, WhenValid))
    case ErrorMessage => Some(Rule(NullString, Nillable))
    case LastUsedAt => Some(Rule(NullTime, Nillable))
    case ExpiresAt => Some(Rule(NullTime, Nillable))
    case AutoPauseOnExpired => Some(Rule(NullBool, WhenValid))
    case Schedulable => Some(Rule(NullBool, WhenValid))
    case RateLimitedAt => Some(Rule(NullTime, Nillable))
    case RateLimitResetAt => Some(Rule(NullTime, Nillable))
    case OverloadUntil => Some(Rule(NullTime, Nillable))
    case TempUnschedulableUntil => Some(Rule(NullTime, Nillable))
    case TempUnschedulableReason => Some(Rule(NullString, Nillable))
    case SessionWindowStart => Some(Rule(NullTime, Nillable))
    case SessionWindowEnd => Some(Rule(NullTime, Nillable))
    case SessionWindowStatus => Some(Rule(NullString, Nillable))
    case _ => None
  }

  function AccountGroupKind(c: Column): Kind {
    match c
    case AccountId | GroupId | Priority => NullInt64
    case CreatedAt => NullTime
    case _ => UnknownType
  }

  function AccountGroupRule(c: Column): Option<Rule> {
    match c
    case AccountId => Some(Rule(NullInt64, WhenValid))
    case GroupId => Some(Rule(NullInt64, WhenValid))
    case Priority => Some(Rule(NullInt64, WhenValid))
    case CreatedAt => Some(Rule(NullTime, WhenValid))
    case _ => None
  }

  // ---------------------------------------------------------------- the group tables

  function GroupKind(c: Column): Kind {
    match c
    case RateMultiplier => NullFloat64
    case Id => NullInt64
    case Name | Status | Platform => NullString
    case CreatedAt | UpdatedAt | DeletedAt => NullTime
    case OfGroup(column) => OwnKind(column)
    case _ => UnknownType
  }

  function OwnKind(c: GroupColumn): Kind {
    match c
    case ModelRouting | SupportedModelScopes | MessagesDispatchModelConfig => RawBytes
    case IsExclusive | AllowImageGeneration | ImageRateIndependent | VideoRateIndependent | ClaudeCodeOnly
      | ModelRoutingEnabled | McpXmlInject | AllowMessagesDispatch | RequireOauthOnly | RequirePrivacySet => NullBool
    case DailyLimitUsd | WeeklyLimitUsd | MonthlyLimitUsd | ImageRateMultiplier | ImagePrice1k | ImagePrice2k
      | ImagePrice4k | VideoRateMultiplier | VideoPrice480p | VideoPrice720p | VideoPrice1080p => NullFloat64
    case DefaultValidityDays | FallbackGroupId | FallbackGroupIdOnInvalidRequest | SortOrder | RpmLimit => NullInt64
    case Description | SubscriptionType | DefaultMappedModel => NullString
  }

  function GroupRule(c: Column): Option<Rule> {
    match c
    case Id => Some(Rule(NullInt64, Always))
    case CreatedAt => Some(Rule(NullTime, WhenValid))
    case UpdatedAt => Some(Rule(NullTime, WhenValid))
    case DeletedAt => Some(Rule(NullTime, Nillable))
    case Name => Some(Rule(NullString, WhenValid))
    case RateMultiplier => Some(Rule(NullFloat64, WhenValid))
    case Status => Some(Rule(NullString, WhenValid))
    case Platform => Some(Rule(NullString, WhenValid))
    case OfGroup(column) => Some(OwnRule(column))
    case _ => None
  }

  function OwnRule(c: GroupColumn): Rule {
    match c
    case Description => Rule(NullString, Nillable)
    case IsExclusive => Rule(NullBool, WhenValid)
    case SubscriptionType => Rule(NullString, WhenValid)
    case DailyLimitUsd => Rule(NullFloat64, Nillable)
    case WeeklyLimitUsd => Rule(NullFloat64, Nillable)
    case MonthlyLimitUsd => Rule(NullFloat64, Nillable)
    case DefaultValidityDays => Rule(NullInt64, WhenValid)
    case AllowImageGeneration => Rule(NullBool, WhenValid)
    case ImageRateIndependent => Rule(NullBool, WhenValid)
    case ImageRateMultiplier => Rule(NullFloat64, WhenValid)
    case ImagePrice1k => Rule(NullFloat64, Nillable)
    case ImagePrice2k => Rule(NullFloat64, Nillable)
    case ImagePrice4k => Rule(NullFloat64, Nillable)
    case VideoRateIndependent => Rule(NullBool, WhenValid)
    case VideoRateMultiplier => Rule(NullFloat64, WhenValid)
    case VideoPrice480p => Rule(NullFloat64, Nillable)
    case VideoPrice720p => Rule(NullFloat64, Nillable)
    case VideoPrice1080p => Rule(NullFloat64, Nillable)
    case ClaudeCodeOnly => Rule(NullBool, WhenValid)
    case FallbackGroupId => Rule(NullInt64, Nillable)
    case FallbackGroupIdOnInvalidRequest => Rule(NullInt64, Nillable)
    case ModelRouting => Rule(RawBytes, Document)
    case ModelRoutingEnabled => Rule(NullBool, WhenValid)
    case McpXmlInject => Rule(NullBool, WhenValid)
    case SupportedModelScopes => Rule(RawBytes, Document)
    case SortOrder => Rule(NullInt64, WhenValid)
    case AllowMessagesDispatch => Rule(NullBool, WhenValid)
    case RequireOauthOnly => Rule(NullBool, WhenValid)
    case RequirePrivacySet => Rule(NullBool, WhenValid)
    case DefaultMappedModel => Rule(NullString, WhenValid)
    case MessagesDispatchModelConfig => Rule(RawBytes, Document)
    case RpmLimit => Rule(NullInt64, WhenValid)
  }

  /** The columns of a group whose field can be nil. */
  ghost predicate IsOptional(c: Column) {
    match c
    case DeletedAt => true
    case OfGroup(g) =>
      (match g
       case Description | DailyLimitUsd | WeeklyLimitUsd | MonthlyLimitUsd | ImagePrice1k | ImagePrice2k
         | ImagePrice4k | VideoPrice480p | VideoPrice720p | VideoPrice1080p | FallbackGroupId
         | FallbackGroupIdOnInvalidRequest => true
       case _ => false)
    case _ => false
  }

  /** A group's column is read exactly when it is known to the scan, and NULL leaves nil exactly where it can. */
  lemma GroupNils(c: Column)
    ensures GroupRule(c).Some? <==> !GroupKind(c).UnknownType?
    ensures IsOptional(c) <==> GroupRule(c).Some? && GroupRule(c).value.style.Nillable?
    ensures GroupRule(c).Some?
            <==> (c.OfGroup? || c.Id? || c.CreatedAt? || c.UpdatedAt? || c.DeletedAt? || c.Name? || c.Status?
                  || c.Platform? || c.RateMultiplier?)
  {
    if c.OfGroup? { OwnNils(c.column); }
    hide OwnRule, OwnKind;
  }

  lemma OwnNils(c: GroupColumn)
    ensures IsOptional(OfGroup(c)) <==> OwnRule(c).style.Nillable?
    ensures !OwnKind(c).UnknownType?
  {}

  /** The two switches of an entity agree on every column, and JSON is read from raw bytes. */
  ghost predicate Agrees(t: Table) { forall c :: t.Rule(c).Some? ==> RuleFits(t.Rule(c).value, t.Kind(c)) }

  predicate RuleFits(rule: Rule, kind: Kind) {
    && rule.kind == kind && !kind.UnknownType?
    && (rule.style.Document? <==> kind.RawBytes?)
    && (rule.style.Always? ==> kind.NullInt64?)
  }

  lemma AccountTablesAgree(c: Column)
    ensures AccountRule(c).Some? ==> RuleFits(AccountRule(c).value, AccountKind(c))
  {}

  lemma GroupTablesAgree(c: Column)
    ensures GroupRule(c).Some? ==> RuleFits(GroupRule(c).value, GroupKind(c))
  {
    if c.OfGroup? { OwnTablesAgree(c.column); }
    hide OwnRule, OwnKind;
  }

  lemma OwnTablesAgree(c: GroupColumn)
    ensures RuleFits(OwnRule(c), OwnKind(c))
  {}

  lemma TablesAgree(t: Table)
    ensures Agrees(t)
  {
    hide AccountRule, AccountKind, GroupRule, GroupKind;
    forall c ensures t.Rule(c).Some? ==> RuleFits(t.Rule(c).value, t.Kind(c)) {
      AccountTablesAgree(c);
      GroupTablesAgree(c);
    }
  }

  // ---------------------------------------------------------------- scanValues

  /** `scanValues`: one empty holder a column, of the column's type. */
  method ScanValues(t: Table, columns: seq<Column>) returns (values: array<Holder>)
    ensures fresh(values) && values[..] == EmptyHolders(t, columns)
  {
    values := new Holder[|columns|](_ => Holder(UnknownType, Null));
    for i := 0 to |columns|
      invariant forall k :: 0 <= k < i ==> values[k] == Holder(t.Kind(columns[k]), Null)
    {
      values[i] := Holder(t.Kind(columns[i]), Null);
    }
  }

  function EmptyHolders(t: Table, columns: seq<Column>): seq<Holder> {
    seq(|columns|, i requires 0 <= i < |columns| => Holder(t.Kind(columns[i]), Null))
  }

  /** The driver scans a row into the holders: each keeps its type. */
  ghost predicate ScannedFrom(t: Table, columns: seq<Column>, values: seq<Holder>) {
    |values| == |columns|
    && forall i :: 0 <= i < |columns| ==> values[i].kind == t.Kind(columns[i]) && Fits(values[i].kind, values[i].cell)
  }

  // ---------------------------------------------------------------- assignValues

  /** `json.Unmarshal` into a map field: entries are added to the map that is there; null clears it. */
  function Merged(before: Doc, read: Doc): Doc {
    if read.NilMap? || before.NilMap? then read else Obj(before.entries + read.entries)
  }

  function DocAt(fields: Fields, c: Column): Doc {
    if c in fields && fields[c].Json? then fields[c].doc else NilMap
  }

  /** One case of `assignValues`. */
  function AssignOne(coder: Coder, rule: Rule, fields: Fields, c: Column, h: Holder): (r: (Fields, Option<AssignError>))
    ensures forall d :: d != c ==> (d in r.0 <==> d in fields) && (d in fields ==> r.0[d] == fields[d])
  {
    if h.kind != rule.kind then (fields, Some(UnexpectedType(c)))
    else match rule.style
         case Always => (fields[c := Of(if h.cell.Int? then h.cell else Int(0))], None)
         case WhenValid | Nillable => (if h.cell.Null? then fields else fields[c := Of(h.cell)], None)
         case Document =>
           if !h.cell.Blob? || h.cell.bytes == [] then (fields, None)
           else match coder.decode(c, h.cell.bytes)
                case None => (fields, Some(BadJson(c)))
                case Some(doc) => (fields[c := Json(Merged(DocAt(fields, c), doc))], None)
  }

  datatype Assigned = Assigned(fields: Fields, selected: map<Column, Holder>, err: Option<AssignError>)

  function Step(coder: Coder, t: Table, a: Assigned, c: Column, h: Holder): Assigned {
    match t.Rule(c)
    case None => a.(selected := a.selected[c := h])
    case Some(rule) => var (fields, err) := AssignOne(coder, rule, a.fields, c, h); a.(fields := fields, err := err)
  }

  /** The loop over the columns, up to the first error. */
  function AssignFrom(coder: Coder, t: Table, a: Assigned, columns: seq<Column>, values: seq<Holder>): Assigned
    requires |columns| <= |values|
    decreases columns
  {
    if columns == [] || a.err.Some? then a
    else AssignFrom(coder, t, Step(coder, t, a, columns[0], values[0]), columns[1..], values[1..])
  }

  class Entity {
    var fields: Fields
    var selected: map<Column, Holder>

    constructor ()
      ensures fields == map[] && selected == map[]
    {
      fields, selected := map[], map[];
    }

    /** `assignValues`. */
    method AssignValues(coder: Coder, t: Table, columns: seq<Column>, values: seq<Holder>)
        returns (err: Option<AssignError>)
      modifies this
      ensures |values| < |columns| ==> err == Some(LengthMismatch) && fields == old(fields) && selected == old(selected)
      ensures |values| >= |columns| ==>
                Assigned(fields, selected, err)
                == AssignFrom(coder, t, Assigned(old(fields), old(selected), None), columns, values)
    {
      if |values| < |columns| { return Some(LengthMismatch); }
      ghost var all := AssignFrom(coder, t, Assigned(fields, selected, None), columns, values);
      for i := 0 to |columns|
        invariant AssignFrom(coder, t, Assigned(fields, selected, None), columns[i..], values[i..]) == all
      {
        assert columns[i..][0] == columns[i] && columns[i..][1..] == columns[i + 1..];
        assert values[i..][0] == values[i] && values[i..][1..] == values[i + 1..];
        var rule := t.Rule(columns[i]);
        if rule.None? {
          selected := selected[columns[i] := values[i]];
        } else {
          var (next, failed) := AssignOne(coder, rule.value, fields, columns[i], values[i]);
          fields := next;
          if failed.Some? { return failed; }
        }
      }
      err := None;
    }
  }

  // ---------------------------------------------------------------- agreement

  /** A cell whose bytes the JSON decoder rejects. */
  predicate Undecodable(coder: Coder, t: Table, c: Column, h: Holder) {
    t.Rule(c).Some? && h.cell.Blob? && h.cell.bytes != [] && coder.decode(c, h.cell.bytes).None?
    && t.Rule(c).value.style.Document?
  }

  lemma StepErr(coder: Coder, t: Table, a: Assigned, c: Column, h: Holder)
    requires h.kind == t.Kind(c) && a.err.None?
    ensures Step(coder, t, a, c, h).err == if Undecodable(coder, t, c, h) then Some(BadJson(c)) else None
  {
    TablesAgree(t);
    hide AccountKind, AccountRule, AccountGroupKind, AccountGroupRule, GroupKind, GroupRule;
  }

  /** Holders of a table's own scan never fail its assignment on a type or a length, for any column list
      (unknown and repeated columns included): the only failure is JSON that does not decode. */
  lemma {:induction false} OnlyJsonFails(coder: Coder, t: Table, a: Assigned, columns: seq<Column>, values: seq<Holder>)
    requires a.err.None? && ScannedFrom(t, columns, values)
    ensures var err := AssignFrom(coder, t, a, columns, values).err;
            && (err.None? <==> forall i :: 0 <= i < |columns| ==> !Undecodable(coder, t, columns[i], values[i]))
            && (err.Some? ==> err.value.BadJson?)
    decreases columns
  {
    hide Agrees, Step, Undecodable, Fits;
    if columns != [] {
      var c, h := columns[0], values[0];
      StepErr(coder, t, a, c, h);
      if !Undecodable(coder, t, c, h) {
        OnlyJsonFails(coder, t, Step(coder, t, a, c, h), columns[1..], values[1..]);
        assert forall i :: 0 <= i < |columns[1..]| ==>
            columns[1..][i] == columns[i + 1] && values[1..][i] == values[i + 1];
      } else {
        assert AssignFrom(coder, t, Step(coder, t, a, c, h), columns[1..], values[1..]) == Step(coder, t, a, c, h);
      }
    }
  }
}
