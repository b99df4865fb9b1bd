/** The columns of accounts, groups and account-group links, their values in memory, and what a create builder holds. */
module Columns {
  import opened Rows

  datatype Column =
    | Id | CreatedAt | UpdatedAt | DeletedAt | Name | Notes | Platform | Type | Credentials | Extra | ProxyId
    | Concurrency | LoadFactor | Priority | RateMultiplier | UpstreamCostMultiplier | UpstreamCostMultiplierUpdatedAt
    | UpstreamCostMultiplierChangeId | UpstreamCostMultiplierSource | CurrentFinanceProfileId | Status | ErrorMessage
    | LastUsedAt | ExpiresAt | AutoPauseOnExpired | Schedulable | RateLimitedAt | RateLimitResetAt | OverloadUntil
    | TempUnschedulableUntil | TempUnschedulableReason | SessionWindowStart | SessionWindowEnd | SessionWindowStatus
    | AccountId | GroupId
    | OfGroup(column: GroupColumn)
    | Other(name: string)

  /** The columns only groups have. */
  datatype GroupColumn =
    | Description | IsExclusive | SubscriptionType | DailyLimitUsd | WeeklyLimitUsd | MonthlyLimitUsd
    | DefaultValidityDays | AllowImageGeneration | ImageRateIndependent | ImageRateMultiplier | ImagePrice1k
    | ImagePrice2k | ImagePrice4k | VideoRateIndependent | VideoRateMultiplier | VideoPrice480p | VideoPrice720p
    | VideoPrice1080p | ClaudeCodeOnly | FallbackGroupId | FallbackGroupIdOnInvalidRequest | ModelRouting
    | ModelRoutingEnabled | McpXmlInject | SupportedModelScopes | SortOrder | AllowMessagesDispatch | RequireOauthOnly
    | RequirePrivacySet | DefaultMappedModel | MessagesDispatchModelConfig | RpmLimit

  /** A JSON object in memory: Go's nil map, or entries as opaque tokens. */
  datatype Doc = NilMap | Obj(entries: map<string, string>)

  /** The value of an entity's field, or the value a mutation sets. */
  datatype Value = Of(cell: Cell) | Json(doc: Doc)

  type Fields = map<Column, Value>

  /** What a create mutation holds: the scalar fields that were set, and the ids of its unique edges,
      by the foreign-key column that carries them. */
  datatype Contents = Contents(fields: Fields, keys: map<Column, int>)

  /** `encoding/json`, kept abstract: what bytes decode to depends on the Go type of the column. */
  datatype Coder = Coder(encode: Doc -> seq<int>, decode: (Column, seq<int>) -> Option<Doc>)

  /** JSON objects, the type of both account columns, survive encoding. */
  ghost predicate Lawful(coder: Coder) {
    forall c, d :: c == Credentials || c == Extra ==>
                     coder.encode(d) != [] && coder.decode(c, coder.encode(d)) == Some(d)
  }

  datatype FieldType = TypeTime | TypeString | TypeJSON | TypeInt | TypeInt64 | TypeFloat64 | TypeBool

  datatype SpecField = SpecField(column: Column, fieldType: FieldType, value: Value)

  datatype CreateSpec = CreateSpec(fields: seq<SpecField>, edges: seq<(Column, int)>)
}
