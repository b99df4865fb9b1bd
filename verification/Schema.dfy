/** Column lists and the projection rules of the generated queries. */
module Schema {

  const ACCOUNT_COLUMNS: seq<string> := [
    "id", "created_at", "updated_at", "deleted_at", "name", "notes", "platform", "type",
    "credentials", "extra", "proxy_id", "concurrency", "load_factor", "priority",
    "rate_multiplier", "upstream_cost_multiplier", "upstream_cost_multiplier_updated_at",
    "upstream_cost_multiplier_change_id", "upstream_cost_multiplier_source",
    "current_finance_profile_id", "status", "error_message", "last_used_at", "expires_at",
    "auto_pause_on_expired", "schedulable", "rate_limited_at", "rate_limit_reset_at",
    "overload_until", "temp_unschedulable_until", "temp_unschedulable_reason",
    "session_window_start", "session_window_end", "session_window_status"]

  const ACCOUNT_GROUP_COLUMNS: seq<string> := ["account_id", "group_id", "priority", "created_at"]

  predicate ValidFields(fields: seq<string>, columns: seq<string>) {
    forall k :: 0 <= k < |fields| ==> fields[k] in columns
  }

  function AddColumnOnce(cols: seq<string>, c: string): seq<string> {
    if c in cols then cols else cols + [c]
  }

  /** `AppendFieldOnce`, called only when fields were selected: none means all columns. */
  function AppendFieldOnce(fields: seq<string>, c: string): seq<string> {
    if fields == [] then [] else AddColumnOnce(fields, c)
  }

  function Without<T(==)>(fields: seq<T>, c: T): seq<T> {
    if fields == [] then []
    else Without(fields[..|fields| - 1], c) + if fields[|fields| - 1] == c then [] else [fields[|fields| - 1]]
  }

  /** Columns of an entity with an id: all of them, or the id and then the selected rest. */
  function IdFirst<T(==)>(fields: seq<T>, columns: seq<T>, id: T): seq<T> {
    if fields == [] then columns else [id] + Without(fields, id)
  }

  function AccountColumns(fields: seq<string>, withProxy: bool): seq<string> {
    var cols := IdFirst(fields, ACCOUNT_COLUMNS, "id");
    if fields != [] && withProxy then AddColumnOnce(cols, "proxy_id") else cols
  }

  /** No id column: only the selected fields, and the keys the requested edges need. */
  function AccountGroupColumns(fields: seq<string>, withAccount: bool, withGroup: bool): seq<string> {
    if fields == [] then ACCOUNT_GROUP_COLUMNS
    else
      var cols := if withAccount then AddColumnOnce(fields, "account_id") else fields;
      if withGroup then AddColumnOnce(cols, "group_id") else cols
  }

  // ---------------------------------------------------------------- projection facts

  lemma {:induction false} WithoutKeeps<T>(fields: seq<T>, c: T)
    ensures c !in Without(fields, c)
    ensures forall f :: f in fields && f != c ==> f in Without(fields, c)
    ensures forall f :: f in Without(fields, c) ==> f in fields
  {
    if fields != [] {
      WithoutKeeps(fields[..|fields| - 1], c);
      assert fields == fields[..|fields| - 1] + [fields[|fields| - 1]];
    }
  }

  lemma OnlyFirstIsId()
    ensures ACCOUNT_COLUMNS[0] == "id" && "id" !in ACCOUNT_COLUMNS[1..]
    ensures "proxy_id" in ACCOUNT_COLUMNS
  {
    assert forall k :: 1 <= k < |ACCOUNT_COLUMNS| ==> |ACCOUNT_COLUMNS[k]| > 2;
    assert ACCOUNT_COLUMNS[10] == "proxy_id";
  }

  /** The id is the first column and occurs there only; the selected fields follow in their
      order; the proxy key is present whenever the proxy edge is loaded. */
  lemma AccountColumnsShape(fields: seq<string>, withProxy: bool)
    ensures var cols := AccountColumns(fields, withProxy);
            && cols != [] && cols[0] == "id" && "id" !in cols[1..]
            && (withProxy ==> "proxy_id" in cols)
            && (fields == [] ==> cols == ACCOUNT_COLUMNS)
            && (fields != [] ==> Without(fields, "id") <= cols[1..] && |cols| <= |Without(fields, "id")| + 2)
  {
    if fields == [] {
      OnlyFirstIsId();
    } else {
      WithoutKeeps(fields, "id");
      var cols := ["id"] + Without(fields, "id");
      assert cols[1..] == Without(fields, "id");
      assert (cols + ["proxy_id"])[1..] == cols[1..] + ["proxy_id"];
    }
  }
}
