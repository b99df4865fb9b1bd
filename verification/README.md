# Eager loading, bulk create and the audit gate: a verified model

This project models three algorithms of the repository and proves what they promise.

**Batched eager loading** (`Rows`, `Schema`, `Eager`, `Scope`, `ManyToMany`, `EagerProof`, `KeyFacts`, `EdgeFacts`,
`Selections`, `Scans`, `ToOne`, `Shares`, `PageFacts`, `LinkPages`, `GroupPages` and, on the heap, `Nodes`, `Loaders`,
`Builders`). A database is a set of row sequences with primary keys; running a query is filter, stable order, page,
project. `Eager` holds two specifications: `FetchAccounts` loads each parent's children one parent at a time,
recursively; `BatchAccounts` sends one query an edge and stitches. `EagerProof.BatchAgrees` shows that they agree for
every nest of unpaged requests, up to the order of groups the child query's order leaves tied;
`ManyToMany.SeparationIsExact` shows exactly when that order can differ, and `PageFacts`, `LinkPages` and `GroupPages`
exactly what a limit and an offset on the query of a to-many edge break. `Selections` and `Scans` say what the rows of
a query and the objects of a load are, down to the position in the table and the single cell, without the functions
that compute them. `Builders` is the code: query objects updated in place, the loaders' maps and loops, deep cloning.
Its `All` is proved to compute `BatchAccounts`; with `BatchAgrees` it computes the one-parent-at-a-time fetch.

**Bulk create** (`Bulk`, `BulkWild`, `BulkHooks`, `BulkTruth`, `BulkSteer`, `BulkExact`, `BulkCode`, `BulkEntities`,
with `Columns`, `ColumnNames`, `Codec`, `CodecReads`, `CodecOver`, `GroupScan`, `Create`, `CreateProof`,
`CreateFacts`). `Bulk.Run` is the chain of mutators through arbitrary hooks as a function on states, with every check,
write and completion logged; a hook may retry, swallow, edit, substitute its mutation or pass on another builder's.
`BulkWild` proves the write guard for hooks with memory that edit whenever they like, of which the chain is one case.
`BulkHooks` proves what holds for every hook and for ever narrower kinds of hooks, with the hook that breaks each
claim beyond them; `BulkTruth` and `BulkSteer` show for which hooks, exactly, a successful save has written and a
failed one has not; `BulkExact` gives the exact trace for hooks that call next at most once and return its result,
substituting or not, and exactly when what is written was checked; `BulkCode` is the code on shared arrays, proved to
be that chain. The codec of accounts, groups and links, and the defaults, checks and specs of accounts and links, are
tables, transcribed switch by switch; `CreateProof.WriteThenRead` is their round trip, `CreateFacts` says with every
column named what a save needs and what it writes, and where the tables must agree with each other, and `GroupScan` is
the shifted scan of joined group rows.

**The audit-exception gate** (`AuditParser`, `AuditPrint`, `AuditVulns`, `AuditGate`, `AuditMeaning`, `AuditOrder`).
The line parser against an independent reading of the file, its exact round trip in all three forms of a value, which
findings an audit yields, the exact meaning of exit code 0 and of raising, from the file's text and the decoded audit
on and down to the fields compared, and exactly when and how the answer depends on the order, repetition and severity
of the findings.

Assumptions: interceptors pass results through; a query object is executed once (its child queries are narrowed in
place, which `SyncPlan` records); ids are primary keys of accounts and groups; rows of the join that the order ties
come link by link (a database may choose otherwise; this matters only to the failing half of `SeparationIsExact` and
to which tied rows a page cuts off); the JSON encoder's output for an account's objects is not empty and decodes to
what was encoded; columns an insert does not name are stored as NULL; the driver's answers, the hooks, the validators,
the defaults, the clock, `str.lower`, `date.fromisoformat` and `str` on JSON values are parameters; a decoded JSON
object is the list of its entries.

What the code does where a reader might expect otherwise: the bulk check runs on the mutation the builder holds,
before the one passed through the hooks replaces it; a lone `-` in the exceptions file does not start a record; a
record's first key may be anything, a later one may not be `version`; a severity that is a nonzero number stops the
script with an exception, not an exit code; without an order, one batched query may list an account's groups in
another order than its own query would; a repeated JSON column merges into the first reading; an expired exception
nobody needs is accepted.

## Model

| member | source | states |
|---|---|---|
| `EagerProof.BatchAgrees` | backend/ent/account_query.go:480-694 | For every database and every finite nest of `With...` requests without a paged child query, one query an edge plus stitching fails if and only if loading each account's children alone fails, and otherwise returns the same trees: rows, flags, proxies, usage logs and links equal, each group list with the same groups once each, and in the same order wherever that order is determined |
| `EagerProof.LinksBatchAgrees` | backend/ent/accountgroup_query.go:334-436 | The other half of the mutual recursion, for account-group queries |
| `EagerProof.BatchIsFetch` | backend/ent/account_query.go:480-694 | Where at every level no groups are asked for, or there is at most one parent, or the order tells the selected groups apart, the batched result and the one-parent-at-a-time result are equal, failures included |
| `EagerProof.SeparatedIsSettled` | backend/ent/account_query.go:542-602 | Child orders that tell the groups apart at every level are enough for that |
| `EagerProof.GroupsEdge` | backend/ent/account_query.go:542-602 | One parent's groups in the batched stream and in its own are the same, once each, whatever the order; equal lists for a single parent or a separating order |
| `EagerProof.StitchIsLoad` | backend/ent/account_query.go:512-539 | When all child queries succeed, the k-th stitched account is what loading the k-th row alone gives, up to group order where that is not determined |
| `EagerProof.BatchFailsLoadFails` | backend/ent/account_query.go:512-539 | When some child query fails, some parent's own load fails too: batching invents no failure |
| `EagerProof.ForeignKeysHold` | backend/ent/account_query.go:604-615 | The id list sent for proxies holds exactly the non-null keys of the parents |
| `EagerProof.PlainKeysHold` | backend/ent/accountgroup_query.go:380-388 | The id list sent for owners holds exactly the keys of the link rows |
| `EagerProof.OwnedByValid` | backend/ent/account_query.go:645-647 | Adding the foreign key to a child's selected fields does not change whether its field check passes |
| `Scope.ShareOfOne` | backend/ent/account_query.go:648-662 | One parent's share of an unpaged `IN (...)` child query is that parent's own query: same rows, same order |
| `Scope.ShareFails` | backend/ent/account_query.go:650-654 | If the batched child query fails, the query of one of the parents fails alone |
| `ManyToMany.GroupsForContents` | backend/ent/account_query.go:576-600 | For every joined stream a parent gets exactly its linked groups, each once |
| `ManyToMany.GroupsInAppearance` | backend/ent/account_query.go:576-600 | Each parent's groups come in the order of first appearance in the stream, whichever parent a group first appears for, and each is the row of that appearance |
| `ManyToMany.GroupsForSorted` | backend/ent/account_query.go:576-600 | If the stream is sorted by any order, every parent's list is sorted by it, although de-duplication is global |
| `ManyToMany.GroupsForMember` | backend/ent/account_query.go:553-600 | A group is in a parent's list if and only if a link row joins them and the child query selects the group |
| `ManyToMany.GroupsForProjected` | backend/ent/account_query.go:576-581 | Selecting group columns does not change which groups a parent gets, nor their order |
| `ManyToMany.BatchedGroupsAgree` | backend/ent/account_query.go:542-602 | If the order separates the selected groups, the batched list of a parent is the list of its own query |
| `ManyToMany.SeparationIsExact` | backend/ent/account_query.go:542-602 | With two parents or more, batched and own group lists agree for every link table if and only if the order separates the selected groups; otherwise two crossed links reverse a list |
| `ManyToMany.TieReorders` | backend/ent/account_query.go:542-602 | The concrete failing case: two tied groups linked crosswise come back in the other order |
| `KeyFacts.RowsOfDistinct` | backend/ent/account_query.go:506-511 | Filtering, ordering and paging keep primary keys distinct, so no parent overwrites another in `byID` |
| `KeyFacts.LeafRowsKeyed` | backend/ent/account_query.go:648-660 | Every row of an `IN (...)` child query carries a key of the list: the unexpected-key error branch is dead |
| `KeyFacts.BatchLinksKeyed` | backend/ent/account_query.go:675-690 | The same for link children, through the nested load |
| `KeyFacts.BatchOwnersKeyed` | backend/ent/accountgroup_query.go:392-401 | The same for owning accounts, through the nested load |
| `KeyFacts.JoinRowsOut` | backend/ent/account_query.go:553-561 | Every joined row belongs to one of the requested parents |
| `EdgeFacts.ChildrenConserved` | backend/ent/account_query.go:655-662 | Over distinct parent ids, the children are split among the parents with none lost and none doubled |
| `EdgeFacts.UsageLogsConserved` | backend/ent/account_query.go:635-664 | All usage-log lists of a finished load together are, as a multiset, the child query's result |
| `EdgeFacts.LinksConserved` | backend/ent/account_query.go:665-694 | All link lists of a finished load together are, as a multiset of trees, the nested load's result |
| `EdgeFacts.ParentIdsDistinct` | backend/ent/account_query.go:480-511 | The ids sent to the child queries are distinct |
| `EdgeFacts.ForeignKeysDistinct` | backend/ent/account_query.go:604-615 | The id list sent for proxies has no repeats |
| `ToOne.ProxyStatus` | backend/ent/account.go:121-128 | After an unpaged proxy load, whatever else is loaded: `ProxyOrErr` is never NotLoaded, is NotFound exactly when the key is NULL or no selected proxy has it, and otherwise returns the projection of the proxy with that key |
| `ToOne.AccountStatus` | backend/ent/accountgroup.go:47-54 | The same for a link's `AccountOrErr`, whatever the account query loads below |
| `ToOne.GroupStatus` | backend/ent/accountgroup.go:58-65 | The same for a link's `GroupOrErr` |
| `ToOne.LastChild` | backend/ent/accountgroup_query.go:397-405 | Among the children of an unpaged `IN (...)` query, the last one with a key is there exactly when the key has a selected target, and is its projection |
| `EdgeFacts.ProjectionKeepsEdges` | backend/ent/account_query.go:716-727 | For every valid select list the eager-loaded edges equal those of the unprojected query, and the rows are its projections |
| `EdgeFacts.LinkProjectionKeepsEdges` | backend/ent/accountgroup_query.go:456-467 | The same for link queries, which have no id column: both keys are added when their edges are asked for |
| `PageFacts.UsageLogPageIsExact` | backend/ent/account_query.go:635-664 | For any limit and offset on the usage-log query of an account load: every account's stitched list is the one its own query returns if and only if the page is empty anyway, takes everything, only one account has children, or it reaches only one account's and no other has more than are skipped |
| `LinkPages.LinkPageIsExact` | backend/ent/account_query.go:665-694 | For any limit and offset on the link query of an account load, whatever is loaded below the links: every account's links are of the rows its own query returns, in that order, if and only if the page is harmless in the same sense |
| `LinkPages.LinkTreePageIsExact` | backend/ent/account_query.go:665-694 | With no page below the links, the same of the links whole, with their accounts and groups |
| `GroupPages.AccountGroupsPageIsExact` | backend/ent/account_query.go:542-602 | For any limit and offset on the groups query, which the code applies to the joined rows of all accounts together: every account has the groups its own query returns, once each, if and only if the page over the joined rows is harmless |
| `GroupPages.GroupPageInOrder` | backend/ent/account_query.go:542-602 | Where the order tells the groups apart, in the same order, too |
| `PageFacts.PageIsExact` | backend/ent/account_query.go:635-694 | The same on the rows of any child query by key; for an offset, over a table without repeated rows |
| `Shares.PageExact` | backend/ent/account_query.go:655-662 | On lists: one page cut out of a list gives every owner the page of its own elements exactly then |
| `PageFacts.LimitIsExact` | backend/ent/account_query.go:635-694 | For a limit without an offset, over any table: if and only if it cuts nothing off, or is zero, or at most one parent has children |
| `Scans.AccountsAreMade` | backend/ent/account_query.go:480-694 | For every database and every finite nest of requests, paged or not: account k of the load holds a cell of row k exactly when the row has it and the column was asked for (all columns; or the id, the selected ones and the proxy key of a loaded proxy), with the same value, and nothing else; its flags say which edges were asked for; each proxy, usage log, group and link in it is, cell by cell, a row that its child query selects and that the foreign key or a link ties to the account; and so on through every nested account and link |
| `Scans.LinksAreMade` | backend/ent/accountgroup_query.go:334-436 | The other half of the mutual recursion: the links of a load, their accounts and their groups |
| `Scans.LeafScans` | backend/ent/account_query.go:620-623 | A query without edges fails if and only if a selected field is no column; otherwise object k holds exactly the cells of row k in all columns, or in the id and the selected ones |
| `Selections.RowsOfExact` | backend/ent/account_query.go:728-747 | The rows of a query are the table rows that satisfy every predicate, each once, ordered by the first order key that tells two apart and by position where none does, from the offset on, at most as many as the limit |
| `ColumnNames.SelectedIsAssigned` | backend/ent/account/account.go:123-158 | The columns an account query selects are exactly those `assignValues` knows, under their names, each in its place |
| `ColumnNames.SelectedGroupIsAssigned` | backend/ent/group/group.go:170-211 | The same for groups |
| `Schema.AccountColumnsShape` | backend/ent/account_query.go:716-727 | For every select list the id is the first column and occurs once; the selected fields follow in order; the proxy key is there when the proxy is loaded |
| `EagerProof.AccountNodeKeys` | backend/ent/account_query.go:716-727 | A projected account row keeps its id, and its proxy key when the proxy is loaded |
| `EagerProof.AccountGroupNodeKeys` | backend/ent/accountgroup_query.go:456-467 | A projected link row keeps the keys of the edges that are loaded |
| `Loaders.IndexById` | backend/ent/account_query.go:546-552 | `byID` maps every parent id to the last parent with that id |
| `Loaders.CollectForeignKeys` | backend/ent/account_query.go:604-615 | The loop computes the duplicate-free key list and, per key, every parent holding it |
| `Loaders.CollectPlainKeys` | backend/ent/accountgroup_query.go:380-388 | The same for plain keys, where every parent has one |
| `Loaders.ScanGroups` | backend/ent/account_query.go:576-585 | The wrapped row callback keeps the first row of every group and notes every linked parent |
| `Loaders.AddGroup` | backend/ent/account_query.go:597-599 | Whatever order the Go map is ranged in, each noted parent gets the group appended once and no other parent changes |
| `Loaders.AssignGroups` | backend/ent/account_query.go:592-600 | The double loop appends to each parent the filter of the neighbours noted for it, in stream order; it fails if and only if a neighbour was never noted |
| `Loaders.LoadGroups` | backend/ent/account_query.go:542-602 | For every stream of known parents the unexpected-node error does not occur, and each parent that is the last with its id gets its groups |
| `Loaders.NotedMeansLinked` | backend/ent/account_query.go:576-600 | Being noted by position is being linked by id |
| `Loaders.AssignUsageLogs` | backend/ent/account_query.go:655-662 | Each parent gets the order-preserving filter of the children by foreign key; the error does not occur |
| `Loaders.AssignAccountGroups` | backend/ent/account_query.go:685-692 | The same for link children |
| `Loaders.AssignProxies` | backend/ent/account_query.go:624-632 | Every parent, several sharing a key included, gets the last row with its key or none; it fails if and only if a row's id was not asked for |
| `Loaders.AssignOwners` | backend/ent/accountgroup_query.go:397-405 | The same for owning accounts |
| `Loaders.AssignGroupRows` | backend/ent/accountgroup_query.go:426-434 | The same for a link's group |
| `Builders.CheckFields` | backend/ent/account_query.go:465-469 | Reports the first selected field that is not a column, and nothing when all are |
| `Builders.SelectIdFirst` | backend/ent/account_query.go:716-723 | The column loop: the id, then the other selected fields in order |
| `Builders.AccountSpec` | backend/ent/account_query.go:716-727 | `querySpec`'s columns for accounts |
| `Builders.AccountGroupSpec` | backend/ent/accountgroup_query.go:456-467 | `querySpec`'s columns for links, which have no id |
| `Builders.ScanAccounts` | backend/ent/account_query.go:491-510 | One fresh node a row, flagged with the requested edges, none of them assigned |
| `Builders.ScanAccountGroups` | backend/ent/accountgroup_query.go:343-363 | The same for links |
| `Builders.LeafQuery.All` | backend/ent/account_query.go:620-623 | A child query without edges of its own: field check, rows, projection |
| `Builders.LoadGroupsEdge` | backend/ent/account_query.go:542-602 | Leaves on every node the groups of the batched stream, and the join of its parents appended to the child query |
| `Builders.LoadProxyEdge` | backend/ent/account_query.go:603-634 | Leaves on every node the proxy of the batched query; no query is sent without keys |
| `Builders.LoadUsageLogsEdge` | backend/ent/account_query.go:635-664 | Leaves on every node its share of the batched usage logs |
| `Builders.LoadAccountGroupsEdge` | backend/ent/account_query.go:665-694 | Leaves on every node its share of the nested link load |
| `Builders.LoadAccountEdge` | backend/ent/accountgroup_query.go:379-407 | Leaves on every link the account of the nested load |
| `Builders.LoadGroupEdge` | backend/ent/accountgroup_query.go:408-436 | Leaves on every link its group |
| `Builders.AccountQuery.Where` | backend/ent/account_query.go:42-45 | Adds a predicate to the plan and changes nothing else |
| `Builders.AccountQuery.Limit` | backend/ent/account_query.go:48-51 | Sets the limit of the plan and changes nothing else |
| `Builders.AccountQuery.OrderBy` | backend/ent/account_query.go:67-70 | Appends an order term to the plan and changes nothing else |
| `Builders.AccountQuery.Select` | backend/ent/account_query.go:441-447 | Appends the selected fields to the plan |
| `Builders.AccountQuery.WithGroups` | backend/ent/account_query.go:364-371 | Replaces the groups request of the plan by the new child query |
| `Builders.AccountQuery.WithProxy` | backend/ent/account_query.go:375-382 | The same for the proxy |
| `Builders.AccountQuery.WithUsageLogs` | backend/ent/account_query.go:386-393 | The same for usage logs |
| `Builders.AccountQuery.WithAccountGroups` | backend/ent/account_query.go:397-404 | The same for links, whose query may nest account queries again |
| `Builders.AccountQuery.All` | backend/ent/account_query.go:480-540 | The in-place code returns the batched tree of its plan or fails exactly when that does, always with a field error: the unexpected-node errors never occur |
| `Builders.AccountQuery.LoadEdges` | backend/ent/account_query.go:512-538 | The edges in their order, stopping at the first failure |
| `Builders.AccountQuery.Clone` | backend/ent/account_query.go:342-360 | A valid copy with the same plan that shares no object with the original, through the whole `With` tree |
| `Builders.AccountQuery.Undisturbed` | backend/ent/account_query.go:342-360 | While the objects of a query are untouched, as they are by any call on its clone, its plan stays |
| `Builders.AccountGroupQuery.WithAccount` | backend/ent/accountgroup_query.go:240-247 | Replaces the account request of the plan |
| `Builders.AccountGroupQuery.WithGroup` | backend/ent/accountgroup_query.go:251-258 | Replaces the group request of the plan |
| `Builders.AccountGroupQuery.All` | backend/ent/accountgroup_query.go:334-377 | The in-place code for links returns its batched tree or fails exactly when that does |
| `Builders.AccountGroupQuery.LoadEdges` | backend/ent/accountgroup_query.go:364-375 | The two edges in their order, stopping at the first failure |
| `Builders.AccountGroupQuery.Clone` | backend/ent/accountgroup_query.go:220-236 | Deep copy, mutually recursive with the account query's |
| `BulkWild.NoWriteBeforeAllChecks` | backend/ent/account_create.go:2180-2229 | For hooks with memory that at every turn may edit any mutation, create mutations, return, or call their own next on any mutation of any type: at every point of a save, a batch write comes only after a passed check of every builder and carries a spec for every builder, so one builder that never passes prevents every write |
| `BulkWild.SaveIsPlayed` | backend/ent/account_create.go:2173-2230 | Every save of the chain below is one of these |
| `Bulk.NoWriteBeforeAllChecks` | backend/ent/account_create.go:2180-2229 | The same for the chain, whose hooks decide from the mutation they are given and the results of their calls, however often they call |
| `Bulk.RunSafe` | backend/ent/account_create.go:2184-2217 | What every run of a mutator keeps, going down the chain and coming back up |
| `BulkHooks.AtMostOneWrite` | backend/ent/account_create.go:2195-2206 | If every hook calls next at most once, the database is written at most once |
| `BulkHooks.RunLocal` | backend/ent/account_create.go:2184-2217 | Builder i's mutator leaves the slots and mutations held by earlier builders alone |
| `BulkTruth.SuccessMeansLanded` | backend/ent/account_create.go:2195-2229 | If no hook, in a state it can reach, claims a success that none of its calls of next had: nothing is marked done before a write succeeded, and a successful save has written |
| `BulkSteer.TruthIsExact` | backend/ent/account_create.go:2195-2229 | For every hook, however often it calls next: every successful save that uses it beside truthful hooks has written, for all checks and drivers, if and only if the hook never claims a success none of its calls had |
| `BulkTruth.FailureMeansNotLanded` | backend/ent/account_create.go:2195-2229 | If no hook, in a state it can reach, reports failure after a success it has seen, a failed save had no accepted write |
| `BulkSteer.LoyaltyIsExact` | backend/ent/account_create.go:2195-2229 | For every hook: every failed save that uses it beside such hooks had no accepted write, for all checks and drivers, if and only if the hook never reports failure after a success it has seen |
| `BulkSteer.Reachable` | backend/ent/account_create.go:2195-2229 | The witness for both: whatever results a hook can reach, some save beside two hooks that return what they are told leads it there; the save ends with what the hook then returns, and a write was accepted if and only if one of the results is a success |
| `BulkTruth.SuccessMeansWritten` | backend/ent/account_create.go:2210-2229 | If hooks claim only the success of their last call, a successful save moreover filled every node slot and marked every mutation done |
| `BulkTruth.SwallowedFailure` | backend/ent/account_create.go:2195-2215 | Why that is needed: a hook that hides a failed check makes the save succeed with nothing written |
| `BulkHooks.OnlyCheckedRowsWritten` | backend/ent/account_create.go:2189-2194 | If every hook passes on the mutation it was given, edited or not and however often, every row written was made from contents that passed the check |
| `BulkHooks.UnsetNeverWritten` | backend/ent/account_create.go:2189-2206 | With such hooks: if one builder lacks a column the check needs and its hooks never set it, nothing is written for any builder |
| `BulkHooks.SubstituteIsNotChecked` | backend/ent/account_create.go:2189-2194 | Why that is needed: the check runs on the mutation the builder holds and only then takes over the one passed on, so a substituted mutation is written unchecked |
| `BulkExact.SaveExact` | backend/ent/account_create.go:2173-2230 | For hooks that fail first, or call next once, on their mutation or a substitute of either type, and return its result: the exact trace. The check of a builder sees what its hooks left in its own mutation, the spec what they passed on. Checks in index order up to the first builder that does not get through; else one write of all specs in builder order, then completions in reverse order |
| `BulkExact.WrittenRowsExact` | backend/ent/account_create.go:2189-2206 | For those hooks: every row written comes from contents that pass the check if and only if, should all builders get through, what each one's hooks passed on passes it |
| `BulkExact.InPlaceAdmitsKept` | backend/ent/account_create.go:2189-2194 | Hooks that keep the mutation object pass on exactly what is checked |
| `BulkExact.StackIsAdmit` | backend/ent/account_create.go:2218-2221 | A hook stack, hook 0 first, is the innermost mutator on the mutation it passes on, with its edits up to the first substitution left in the one it was given, and no other object changed |
| `BulkExact.ErrorMeansNothingHappened` | backend/ent/account_create.go:2180-2229 | For the same hooks: an error means no accepted write and nothing marked done, and no write at all when a builder did not get through |
| `BulkExact.SaveReturnsWrittenNodes` | backend/ent/account_create.go:2194-2229 | For the same hooks: on success slot j holds builder j's written row with its generated id, and the builder ends up with the mutation its hooks passed on, marked done |
| `BulkCode.BulkSave.Wrap` | backend/ent/account_create.go:2218-2221 | The wrapping loop puts hook 0 outermost |
| `BulkCode.BulkSave.MutateBase` | backend/ent/account_create.go:2184-2217 | The closure over the shared arrays is the innermost step of the chain, the error for a mutation of another type included |
| `BulkCode.BulkSave.CallHook` | backend/ent/account_create.go:2218-2221 | A hook stack on the shared state is the chain's |
| `BulkCode.BulkSave.SaveAll` | backend/ent/account_create.go:2173-2230 | `Save` on arrays, closures and in-place mutations is the chain run from the builders' defaults; a pending builder error comes first |
| `BulkEntities.WrittenRowsAreComplete` | backend/ent/account_create.go:2182-2194 | With hooks that keep the mutation object, no row is ever written without a required column, although the error of `defaults` is dropped |
| `BulkEntities.WrittenRowsHaveKeys` | backend/ent/accountgroup_create.go:124-142 | With such hooks no link is ever written without its account id and its group id, and no account without any of the fourteen columns it needs, named one by one |
| `BulkEntities.FailedDefaultIsNeverWritten` | backend/ent/account_create.go:2182-2206 | If one builder's defaults fail and its hooks never set an unset column, nothing is written for any builder, with any hooks that keep the mutation object, however often they call next |
| `BulkEntities.SaveBulk` | backend/ent/account_create.go:2173-2230 | A bulk save of fresh builders on the arrays of the code is the chain from their defaulted contents, and writes nothing in the case above. Without hooks it ends without an error if and only if every account has name, platform and type, computable defaults where needed and values, given or default, that the validators accept, every link has both keys, and the driver inserts; then one write was sent, and each row in it, of contents as the setters make them, holds every value that was given, the package default of every other column that has one, the edge keys, and nothing else |
| `BulkCode.DefaultsReach` | backend/ent/account_create.go:2181-2182 | The loop over the builders gives each its own defaults and leaves the later ones as they were |
| `BulkEntities.FailedDefaultWritesNothing` | backend/ent/account_create.go:2182-2191 | With hooks that fail first or call next once, substituting or not: the save then fails, nothing is written for any builder and nothing is marked done |
| `BulkEntities.WrittenRowsPass` | backend/ent/account_create.go:2189-2206 | For both entities, whose specs determine the check: every row written would pass `check` if and only if, should all builders get through, what each one's hooks passed on does |
| `BulkEntities.SavedNodesReadBack` | backend/ent/account_create.go:2194-2229 | After a successful save each returned node reads back from its row through any column list, with the generated id |
| `Codec.TablesAgree` | backend/ent/group.go:202-497 | The holder type `scanValues` allocates is the one `assignValues` asserts, for every column of the three entities |
| `Codec.GroupNils` | backend/ent/group.go:202-497 | For groups the two switches know the same columns, and NULL leaves nil in exactly the twelve fields that can be nil, named one by one |
| `Codec.ScanValues` | backend/ent/account.go:149-172 | One empty holder a column, of the column's type |
| `Codec.Entity.AssignValues` | backend/ent/account.go:176-413 | Fields, selected values and error are those of the column-by-column assignment; too few values change nothing |
| `CodecOver.AssignsOver` | backend/ent/account.go:176-413 | Assigning distinct known columns over an entity that holds something already: an id becomes the number, or 0 for NULL; otherwise NULL and empty JSON leave the field alone, JSON entries are added to the map that is there, entry by entry, `null` clears it, any other value replaces the field, and fields that are not listed stay |
| `Codec.OnlyJsonFails` | backend/ent/account.go:149-413 | For every column list, unknown and repeated columns included, scanned holders never fail on a type or a length; assignment fails if and only if some JSON cell does not decode |
| `GroupScan.JoinedRowCarriesId` | backend/ent/account_query.go:566-585 | For every select list of a group query and everything a driver can scan into the wrapped holders: neither unchecked assertion panics, the id the callback reads is the id of the group assigned from the rest, and assignment fails only on JSON that does not decode |
| `GroupScan.SecondColumnIsId` | backend/ent/group_query.go:1050-1058 | In every select list behind the join's account id, the second column is the id and no other is |
| `GroupScan.WrappedScan` | backend/ent/account_query.go:569-575 | An integer holder for the account id, then the group's own holders |
| `GroupScan.ScanJoined` | backend/ent/account_query.go:566-590 | Over all scanned rows the callbacks never panic, read one group an id, in order of first appearance and with that id, and note the parents of every id as the loader needs them; they stop only at JSON that does not decode |
| `CodecReads.ReadIsPointwise` | backend/ent/account.go:149-413 | Reading a row through any column list whose JSON cells decode gives exactly the listed columns, whatever the others hold: order and repetition make no difference |
| `CodecReads.OrderIsIrrelevant` | backend/ent/account.go:176-413 | For distinct columns any reordering of the scanned pairs succeeds alike and then assigns the same entity; it fails with the same error when only one column does not decode |
| `CodecReads.ErrorOrderIsExact` | backend/ent/account.go:176-413 | The error of an assignment is the same in every order of distinct columns if and only if at most one of them does not decode |
| `CodecReads.CulpritInFront` | backend/ent/account.go:176-413 | Any column that does not decode is the one reported when it comes first |
| `CodecReads.ErrorIsFirst` | backend/ent/account.go:232-247 | The error names the first column whose JSON does not decode |
| `CodecReads.HoldingStep` | backend/ent/account.go:232-247 | Reading a column again changes nothing, a JSON column merging into itself included |
| `Create.CreateBuilder.ApplyDefaults` | backend/ent/account_create.go:522-580 | The defaults, in order, up to the first that cannot be computed |
| `Create.DefaultsFill` | backend/ent/account_create.go:522-580 | `defaults` keeps what was set, fills only unset defaulted columns from their defaults, and succeeds if and only if all of them are then set |
| `Create.DefaultsAreRequired` | backend/ent/account_create.go:522-657 | Every defaulted column is required by `check` |
| `Create.CreateBuilder.Check` | backend/ent/account_create.go:583-657 | Passes if and only if every required column is set and every present validated value is accepted; otherwise names the first at fault |
| `Create.CheckAfterDefaults` | backend/ent/account_create.go:522-657 | `check` after `defaults` passes if and only if every default could be computed, every required column without one was set, and every value to validate is accepted |
| `Create.AccountCheckExact` | backend/ent/account_create.go:522-657 | For accounts: passes if and only if every default could be computed, name, platform and type were set, and the validators accept every validated value that is then set |
| `CreateFacts.AccountPassesExact` | backend/ent/account_create.go:583-657 | `check` passes an account if and only if its fourteen required columns, named one by one, are set and each of the six validated ones that is set is accepted |
| `CreateFacts.LinkCheckExact` | backend/ent/accountgroup_create.go:123-143 | `check` passes a link if and only if account id, group id, priority and creation time are set |
| `CreateFacts.DefaultsExact` | backend/ent/account_create.go:522-580 | `defaults` succeeds if and only if the package functions it needs, of created_at, updated_at, credentials and extra, are there; then every value that was set is kept and every unset column that has a default holds that default, from its function or its constant, and no other |
| `CreateFacts.InsertableExact` | backend/ent/account_create.go:522-657 | `check` after `defaults` passes if and only if the caller gave what the `SaveBulk` row lists |
| `CreateFacts.SchemaOrder` | backend/ent/account_create.go:522-865 | `defaults`, `check` and `createSpec` go through an account's columns in the order of the schema, so the first column at fault is the first in that order |
| `CreateFacts.LinkSchemaOrder` | backend/ent/accountgroup_create.go:123-143 | `check` goes through a link's columns in the order of the schema |
| `CreateFacts.ReadExactlyWhatIsWritten` | backend/ent/account_create.go:683-847 | The codec reads exactly the columns `createSpec` writes, and an account's id |
| `CreateFacts.IntTypes` | backend/ent/account_create.go:683-847 | Concurrency, load factor and priority are written as `int`, the other integer columns of an account as `int64` |
| `CreateFacts.NilExactlyWhenOptional` | backend/ent/account.go:176-413 | NULL reads as nil in exactly the fields `check` lets stay unset, for accounts and for links |
| `Create.EveryColumnIsWritten` | backend/ent/account_create.go:683-847 | `createSpec` writes every column the codec reads, as a scalar or through an edge, except the id |
| `Create.CreateBuilder.AddScalars` | backend/ent/account_create.go:683-810 | Scalar specs and node fields, side by side |
| `Create.CreateBuilder.AddEdges` | backend/ent/account_create.go:831-847 | The unique edge's key goes into an edge spec and into the node |
| `Create.CreateBuilder.MakeSpec` | backend/ent/account_create.go:677-865 | The spec and the node of `createSpec` |
| `Create.SpecFitsCodec` | backend/ent/account_create.go:683-847 | Column by column, the field type `createSpec` writes is the one of the holder the codec scans into, JSON columns are the documents, and edge keys are integer columns |
| `CreateProof.WriteThenRead` | backend/ent/account_create.go:677-865 | Round trip for every mutation: the stored row read through any column list equals the returned node on the listed columns, with the generated id, and is zero elsewhere |
| `CreateProof.ColumnReadsBack` | backend/ent/accountgroup_create.go:159-208 | One column, keys written only through edges included |
| `AuditParser.ParseExceptions` | tools/check_pnpm_audit_exceptions.py:23-48 | The loop computes the parse of the lines |
| `AuditParser.ParseStructure` | tools/check_pnpm_audit_exceptions.py:23-48 | For every file: parsing raises if and only if an item line has no colon; otherwise there is one record an item line and each is read from its own block, so the `if current` guards drop nothing |
| `AuditParser.LastWriteWins` | tools/check_pnpm_audit_exceptions.py:43-45 | A field of a record is the value of the last line of its block with that key |
| `AuditParser.UnwrittenKeyStays` | tools/check_pnpm_audit_exceptions.py:43-45 | A key no line of the block writes is as the item line left it |
| `AuditParser.ItemHasText` | tools/check_pnpm_audit_exceptions.py:34-41 | An item line always has text after the dash: the `if line` test never fails |
| `AuditParser.SplitKvTotal` | tools/check_pnpm_audit_exceptions.py:12-20 | Splitting raises if and only if the line has no colon |
| `AuditPrint.RoundTrip` | tools/check_pnpm_audit_exceptions.py:12-48 | Printing any records of distinct plain keys to a file, each value as it is, in single quotes or in double quotes, and parsing the file gives them back if and only if no key or value has a line break, no key below an item line starts with `#` or a dash and space or is `version` or `exceptions`, and no value printed without quotes has a space at an end or the same quote at both |
| `AuditPrint.ParsedUnbroken` | tools/check_pnpm_audit_exceptions.py:27-28 | No key or value parsed from any file has a line break in it |
| `AuditPrint.ReadBackUnbroken` | tools/check_pnpm_audit_exceptions.py:27-28 | So records that some file gives back have none |
| `AuditParser.FileLinesExact` | tools/check_pnpm_audit_exceptions.py:27-28 | Iterating over a text file: the lines together are the text with `\r\n` and `\r` read as `\n`, and a line feed ends every line, save perhaps the last, and stands nowhere else |
| `AuditParser.SpaceCharacters` | tools/check_pnpm_audit_exceptions.py:28-28 | What `strip` takes off: the 29 characters Python counts as space, one by one |
| `AuditPrint.MarginsAreIrrelevant` | tools/check_pnpm_audit_exceptions.py:28-28 | Spaces, tabs and line ends around a line do not change the step it causes; a line with visible ASCII at both ends is kept whole |
| `AuditPrint.LaterLineReads` | tools/check_pnpm_audit_exceptions.py:29-45 | By its key alone a later line starts a record, is dropped, or carries its pair |
| `AuditPrint.KeyValueSplits` | tools/check_pnpm_audit_exceptions.py:12-20 | For every plain key, a stripped line splits into the key and the printed value: always when the value is in single or in double quotes, whatever it holds, which lose exactly the quotes; without quotes if and only if the value has no space at an end and not the same quote at both; a lone quote reads as empty |
| `AuditGate.IndexExceptions` | tools/check_pnpm_audit_exceptions.py:153-185 | The index holds the first sound exception of every key, and there is no problem if and only if all are sound with distinct keys |
| `AuditGate.Flaw` | tools/check_pnpm_audit_exceptions.py:157-174 | No reason to reject if and only if the exception is sound |
| `AuditGate.ScanFindings` | tools/check_pnpm_audit_exceptions.py:187-219 | Raises if and only if some severity is truthy and no string; otherwise no problem if and only if every relevant finding is named and the first of each key is permitted, and each uncovered and each expired key is reported exactly once |
| `AuditGate.Gate` | tools/check_pnpm_audit_exceptions.py:142-243 | From the file's text and the decoded audit on: the script raises exactly on an item line without a colon, on an audit `iter_vulns` raises on, or on a severity that is truthy and no string, and otherwise exits 0 if and only if exceptions and findings are acceptable |
| `AuditVulns.IterVulns` | tools/check_pnpm_audit_exceptions.py:64-111 | The loops yield the findings of the two sections in order, or raise |
| `AuditVulns.ScanVia` | tools/check_pnpm_audit_exceptions.py:84-111 | The loop over one `via` list: findings of the truthy advisories in order, or the exception of joining a title that is no string |
| `AuditVulns.VulnsExact` | tools/check_pnpm_audit_exceptions.py:51-111 | Raises if and only if the document or an entry of a section is no object, an advisory without GitHub id and URL has truthy CVEs that are neither a list nor a string, or a title is truthy and no string. Otherwise the findings are, in order, one an advisory and one an item of `via` with a truthy advisory. In each the id is the first truthy one of GitHub id, URL, first CVE, text of the id, title, advisory, overview (for an item: GitHub id, URL, source, title, name) and the name the first of `module_name` and `name`; severity and texts are those of the values |
| `AuditVulns.FindExact` | tools/check_pnpm_audit_exceptions.py:66-74 | `get` gives the first entry with the key, and None without one |
| `AuditMeaning.AcceptsExact` | tools/check_pnpm_audit_exceptions.py:114-219 | What exit code 0 asks, down to the fields: every exception has package, advisory, severity, mitigation and expiry, none empty, a date, and a package and advisory that are more than space, and no two are for the same package and advisory; every finding of severity high or critical that has a name has an advisory, and the first of each package and advisory has an exception for it, of the same or a blank severity, whose last day is today or later. Packages compare stripped, advisories and severities stripped and in lower case |
| `AuditGate.PermittedIsCovered` | tools/check_pnpm_audit_exceptions.py:207-219 | On a sound list, looking a finding up in the index is searching the list |
| `AuditOrder.OrderIsExact` | tools/check_pnpm_audit_exceptions.py:191-219 | Every reordering of the findings ends the script alike, and so does every repetition, if and only if it raises anyway, the exceptions are rejected anyway, every relevant finding is covered, or some relevant finding is unnamed or of a key without a covered one |
| `AuditOrder.SomeOrder` | tools/check_pnpm_audit_exceptions.py:191-219 | Some order exits 0 if and only if the script does not raise, the exceptions hold, every relevant finding is named, and each of their keys has a covered finding |
| `AuditOrder.OrderIsIrrelevant` | tools/check_pnpm_audit_exceptions.py:191-206 | In particular when the findings of each key agree on severity, or its exception takes any: reordering and repeating findings never changes how the script ends |
| `AuditOrder.EntryOrderIsIrrelevant` | tools/check_pnpm_audit_exceptions.py:64-111 | Then the order and repetition of the entries in the audit's JSON does not matter either |
| `AuditOrder.EveryOrder` | tools/check_pnpm_audit_exceptions.py:191-219 | Every order exits 0 if and only if the script does not raise, the exceptions hold, and each relevant finding is covered, not just the first of its key |
| `AuditOrder.SkippedFindingsNeverMatter` | tools/check_pnpm_audit_exceptions.py:193-196 | Low-severity and unnamed findings never mask a later one: dropping all of them changes nothing, as long as those stay whose severity is truthy and no string, which is read before the name |
| `AuditOrder.OrderDoesMatter` | tools/check_pnpm_audit_exceptions.py:203-215 | The concrete case: a high and a critical finding of one key, accepted in one order and rejected in the other |

## Left out

- Sharing: a proxy or group loaded for several parents is one Go object; here each parent's edge holds the finished row value.
- SQL text, dialects, locking, constraint errors, traversal paths, `Unique`, and interceptors that change results.
- `LIMIT 0` is an empty page here.
- Re-running a query whose group child already carries a join.
- Edges requested on group, proxy and usage-log queries: `sqlAll` there repeats the same templates.
- Single-row `Save` through `withHooks`: `withHooks` is not part of this model; the bulk chain has the harder order.
- `AccountGroupCreateBulk.Save` is the same chain with a driver that returns no ids; it has no class of its own.
- Bulk.NoWriteBeforeAllChecks: its hooks, and those of the results beside it, decide from the contents of the mutation they were given and the results of their calls, without memory, and edit when they call next; `BulkWild` has no such limits. A hook that keeps its next and calls it after it returned, or lets another builder's hook call it, is outside both.
- Builders.AccountQuery.Clone: predicates, orders and fields are immutable sequences here, so that a clone has its own slices of them holds by construction; the contexts, the child queries and the query objects are copied and proved fresh.
- Builders.AccountGroupQuery.Clone: the same.
- AuditOrder.EntryOrderIsIrrelevant: gives a sufficient condition only, because the findings of one entry stay together when entries are reordered, so that the exact condition on findings is not the one on entries.
- Codec.AssignOne: reads the list and the object among the group's JSON columns like its map; they differ only when assigned over another document, which a scan never does, since a repeated column carries the same bytes.
- Create builders of groups.
- `createSpec`, `defaults` and `check` repeat one statement a column; they are one loop over a table in the same order, and an entity's fields are one map whose missing entries are the zero values.
- The many-to-many and one-to-many edge specs of an account insert write other tables' rows.
- Widths of Go integers and precision of stored decimals, floats and times: these are opaque or unbounded values.
- Reading files, arguments and JSON, and the wording of error messages, to which a finding's title belongs.
- Setters, upsert, update, delete, `GroupBy`, `Aggregate`, `Count`, and the finance entities, which repeat the templates.
