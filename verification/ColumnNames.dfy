/** The column lists of the queries and the columns the codec knows are the same. */
module ColumnNames {
  import opened Schema
  import opened Columns
  import opened Codec
  import opened GroupScan

  function NameOf(c: Column): string {
    match c
    case Id => "id"
    case CreatedAt => "created_at"
    case UpdatedAt => "updated_at"
    case DeletedAt => "deleted_at"
    case Name => "name"
    case Notes => "notes"
    case Platform => "platform"
    case Type => "type"
    case Credentials => "credentials"
    case Extra => "extra"
    case ProxyId => "proxy_id"
    case Concurrency => "concurrency"
    case LoadFactor => "load_factor"
    case Priority => "priority"
    case RateMultiplier => "rate_multiplier"
    case UpstreamCostMultiplier => "upstream_cost_multiplier"
    case UpstreamCostMultiplierUpdatedAt => "upstream_cost_multiplier_updated_at"
    case UpstreamCostMultiplierChangeId => "upstream_cost_multiplier_change_id"
    case UpstreamCostMultiplierSource => "upstream_cost_multiplier_source"
    case CurrentFinanceProfileId => "current_finance_profile_id"
    case Status => "status"
    case ErrorMessage => "error_message"
    case LastUsedAt => "last_used_at"
    case ExpiresAt => "expires_at"
    case AutoPauseOnExpired => "auto_pause_on_expired"
    case Schedulable => "schedulable"
    case RateLimitedAt => "rate_limited_at"
    case RateLimitResetAt => "rate_limit_reset_at"
    case OverloadUntil => "overload_until"
    case TempUnschedulableUntil => "temp_unschedulable_until"
    case TempUnschedulableReason => "temp_unschedulable_reason"
    case SessionWindowStart => "session_window_start"
    case SessionWindowEnd => "session_window_end"
    case SessionWindowStatus => "session_window_status"
    case GroupId => "group_id"
    case AccountId => "account_id"
    case Other(name) => name
    case OfGroup(_) => ""
  }

  /** Where a column of an account stands in the schema. */
  function Place(c: Column): nat {
    match c
    case Id => 0
    case CreatedAt => 1
    case UpdatedAt => 2
    case DeletedAt => 3
    case Name => 4
    case Notes => 5
    case Platform => 6
    case Type => 7
    case Credentials => 8
    case Extra => 9
    case ProxyId => 10
    case Concurrency => 11
    case LoadFactor => 12
    case Priority => 13
    case RateMultiplier => 14
    case UpstreamCostMultiplier => 15
    case UpstreamCostMultiplierUpdatedAt => 16
    case UpstreamCostMultiplierChangeId => 17
    case UpstreamCostMultiplierSource => 18
    case CurrentFinanceProfileId => 19
    case Status => 20
    case ErrorMessage => 21
    case LastUsedAt => 22
    case ExpiresAt => 23
    case AutoPauseOnExpired => 24
    case Schedulable => 25
    case RateLimitedAt => 26
    case RateLimitResetAt => 27
    case OverloadUntil => 28
    case TempUnschedulableUntil => 29
    case TempUnschedulableReason => 30
    case SessionWindowStart => 31
    case SessionWindowEnd => 32
    case SessionWindowStatus => 33
    case _ => 34
  }

  /** A query selects exactly the columns `assignValues` knows, under their names and each in its place. */
  lemma SelectedIsAssigned(c: Column)
    ensures |ACCOUNT_COLUMNS| == 34
    ensures AccountRule(c).Some? <==> Place(c) < 34
    ensures AccountRule(c).Some? ==> ACCOUNT_COLUMNS[Place(c)] == NameOf(c)
  {
    if Place(c) < 12 { EarlyName(c); } else if Place(c) < 24 { MiddleName(c); } else if Place(c) < 34 { LateName(c); }
    PlacesRead(c);
    hide NameOf, AccountRule, Place;
  }

  lemma PlacesRead(c: Column)
    ensures |ACCOUNT_COLUMNS| == 34
    ensures AccountRule(c).Some? <==> Place(c) < 34
  {}

  lemma EarlyName(c: Column)
    requires Place(c) < 12
    ensures ACCOUNT_COLUMNS[Place(c)] == NameOf(c)
  {}

  lemma MiddleName(c: Column)
    requires 12 <= Place(c) < 24
    ensures ACCOUNT_COLUMNS[Place(c)] == NameOf(c)
  {}

  lemma LateName(c: Column)
    requires 24 <= Place(c) < 34
    ensures ACCOUNT_COLUMNS[Place(c)] == NameOf(c)
  {}

  lemma PlacesDiffer(c: Column, d: Column)
    requires Place(c) == Place(d) < 34
    ensures c == d
  {}

  /** Where a column of a group stands in the schema. */
  function GroupPlace(c: Column): nat {
    match c
    case Id => 0
    case CreatedAt => 1
    case UpdatedAt => 2
    case DeletedAt => 3
    case Name => 4
    case RateMultiplier => 6
    case Status => 8
    case Platform => 9
    case OfGroup(g) => OwnPlace(g)
    case _ => 40
  }

  function OwnPlace(g: GroupColumn): nat {
    match g
    case Description => 5
    case IsExclusive => 7
    case SubscriptionType => 10
    case DailyLimitUsd => 11
    case WeeklyLimitUsd => 12
    case MonthlyLimitUsd => 13
    case DefaultValidityDays => 14
    case AllowImageGeneration => 15
    case ImageRateIndependent => 16
    case ImageRateMultiplier => 17
    case ImagePrice1k => 18
    case ImagePrice2k => 19
    case ImagePrice4k => 20
    case VideoRateIndependent => 21
    case VideoRateMultiplier => 22
    case VideoPrice480p => 23
    case VideoPrice720p => 24
    case VideoPrice1080p => 25
    case ClaudeCodeOnly => 26
    case FallbackGroupId => 27
    case FallbackGroupIdOnInvalidRequest => 28
    case ModelRouting => 29
    case ModelRoutingEnabled => 30
    case McpXmlInject => 31
    case SupportedModelScopes => 32
    case SortOrder => 33
    case AllowMessagesDispatch => 34
    case RequireOauthOnly => 35
    case RequirePrivacySet => 36
    case DefaultMappedModel => 37
    case MessagesDispatchModelConfig => 38
    case RpmLimit => 39
  }

  /** The same for groups: all that `assignValues` knows is selected, in the order of the schema, and nothing else. */
  lemma SelectedGroupIsAssigned(c: Column)
    ensures |GroupColumns()| == 40
    ensures GroupRule(c).Some? <==> GroupPlace(c) < 40
    ensures GroupRule(c).Some? ==> GroupColumns()[GroupPlace(c)] == c
  {
    GroupPlacesRead(c);
    if GroupPlace(c) < 20 {
      if GroupPlace(c) < 10 { EarlyGroup(c); } else { MiddleGroup(c); }
    } else if GroupPlace(c) < 40 {
      LateGroup(c);
    }
    hide GroupColumns, GroupRule, GroupPlace;
  }

  lemma GroupPlacesRead(c: Column)
    ensures |GroupColumns()| == 40
    ensures GroupRule(c).Some? <==> GroupPlace(c) < 40
  {
    hide OwnRule;
  }

  lemma EarlyGroup(c: Column)
    requires GroupPlace(c) < 10
    ensures |GroupColumns()| == 40 && GroupColumns()[GroupPlace(c)] == c
  {}

  lemma MiddleGroup(c: Column)
    requires 10 <= GroupPlace(c) < 20
    ensures |GroupColumns()| == 40 && GroupColumns()[GroupPlace(c)] == c
  {}

  lemma LateGroup(c: Column)
    requires 20 <= GroupPlace(c) < 40
    ensures |GroupColumns()| == 40 && GroupColumns()[GroupPlace(c)] == c
  {}
}
