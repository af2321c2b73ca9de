# Eager loading, bulk create and the audit gate

A Dafny model of three parts of the repository that carry algorithms, with proofs about them.

1. **Batched eager loading** (`backend/ent/account_query.go`, `accountgroup_query.go`, `account.go`).
   `AccountQuery.sqlAll` runs one query for the root rows and one batched query per requested edge,
   joins them in memory through id maps, and recurses along Account → Parent/Children → Account and
   Account → AccountGroups → Account.
   - `Store`: tables, rows, and what a query selects: filter, DISTINCT, stable order, offset, limit.
   - `Plan`: queries as values; `Run` is the batched meaning, `Nested` the simple one, a lookup per node and edge.
   - `PlanLaws`: `Run` builds what `Nested` builds, for every eager-load tree.
   - `RowLaws`: what a select returns, ranking by ranking, row by row and column by column.
   - `KeyLaws`: which rows the edges of a result hold, in terms of the key columns.
   - `EagerLaws`: projection, partition, limits, many-to-many order, reuse, clones, terminal operations.
   - `LimitLaws`, `GroupLimits`: limits, duplicates and reused builders, in terms of what each node receives.
   - `FailingInputs`: inputs at which the conditions of these laws fail.
   - `Loaders`: entity objects, id maps and assign callbacks on the heap.
   - `Eager`: the builders on the heap, with the in-place changes that loaders and terminal operations make,
     each method proved against `Plan`.
   - `EagerResults`: the two together, and the edge accessors.
2. **Create and bulk create** (`backend/ent/account_create.go`, `account.go`).
   - `Codec`, `CodecLaws`: `scanValues` and `assignValues`.
   - `Create`: `defaults`, `check`, `createSpec`, and reading a created row back.
   - `BulkPlan`: the continuation chain of mutators and hooks as a value: results, events, done flags.
   - `Bulk`: builders, mutations, nodes and specs on the heap, proved against `BulkPlan`.
   - `BulkLaws`: what a save comes to.
3. **The audit gate** (`tools/check_pnpm_audit_exceptions.py`).
   - `AuditText`, `AuditParser`, `AuditParserLaws`: strings, the line parser, its laws.
   - `AuditGate`, `AuditLaws`: collecting vulnerabilities, the decision loop against a quantified policy, its laws.

`Collections` holds `Option`, `Result` and selection by key.  Each loop of the source is a method with
invariants; functions say what it computes, and the lemmas are about those functions.  Hooks are given by
what they do in the one run a save makes: edit the mutation and call next (perhaps with another mutation),
return, fail, or fail after next has succeeded.  SQL, JSON text, validators, `lower`, `str` and the date
parser are parameters.

Findings, where the code differs from its comments or from what one would expect:

- Root rows that share an id: to-one edges are filled on each, to-many edges only on the last
  (`PlanLaws.BatchedIsNested`).  The rows share no id unless a traversal query has DISTINCT switched off, by
  `Unique(false)` or by a lock modifier on PostgreSQL (`PlanLaws.GuardedIsNested`); `PlanLaws.NestedIff` says
  exactly when it then shows, and `PlanLaws.DuplicatesDiffer` gives an input.
- A limit on an edge's query bounds the sum over all nodes, not each node's list.  `LimitLaws.LimitedLists`,
  `LimitLaws.LimitedOnes` and `GroupLimits.LimitedGroups` say exactly when the two agree, and
  `FailingInputs.LimitedListsDiffer`, `LimitedOnesDiffer` and `LimitedGroupsDiffer` where they do not.
- An edge builder keeps the id list of its first load, so loading it for other nodes can lose rows
  (`LimitLaws.ReusedLists`, `LimitLaws.ReusedOnes`; `FailingInputs.ReusedListsDiffer`, `ReusedOnesDiffer`).  A
  second `IDs` on one builder always fails (`EagerLaws.ScanTwice`), and a zero limit is no limit for `All` but
  one for `IDs` (`EagerLaws.ScanIsRun`, `FailingInputs.ScanDiffers`).
- `Clone` is documented to copy all steps but leaves the lock modifiers behind (`Eager.QueryBuilder.Clone`,
  `EagerLaws.ClonedSame`).
- Bulk save checks the builder's mutation before the one a hook passed on replaces it, so a hook with a
  mutation of its own can insert unchecked fields (`BulkLaws.SwapEvades`, `BulkLaws.SwapInserts`).
- A hook that returns without calling next and without an error makes bulk save report success with nothing
  inserted (`BulkLaws.SilentSkip`, `BulkLaws.SkipsSilently`).
- `UpdateNewValues` is documented as the same as `ResolveWithNewValues` alone, but it keeps the `created_at`
  of an existing row exactly when some mutation that reaches the insert has one.  One builder whose hooks pass
  on what they got is enough (`BulkLaws.NewValuesKeepCreation`); hooks with mutations of their own can lose it
  (`BulkLaws.NewValuesLoseCreation`).
- The audit tool allows for numeric `source` values, but stops on one when nothing else gives a title
  (`AuditLaws.NumericSourceStops`); and of several entries with one key only the first has its severity
  compared, so their order can decide (`AuditLaws.OrderDecides`, `AuditLaws.EveryOrder`).

## Model

| member | source | states |
|---|---|---|
| PlanLaws.BatchedIsNested | backend/ent/account_query.go:550-844 | For every eager-load tree of any depth, with filtered and ordered but unlimited edge queries, the batched loaders do not fail and give each root node the tree of a per-node lookup; among root rows with one id only the last keeps its to-many edges, the others have them loaded but empty. |
| PlanLaws.BatchedIsNestedDistinct | backend/ent/account_query.go:550-844 | With distinct root ids the batched result equals the nested lookup, membership rows (which have no id) included. |
| PlanLaws.NestedIff | backend/ent/account_query.go:550-844 | With duplicate root rows the batched result equals the nested lookup exactly when no root row that a later one shadows has a to-many neighbour. |
| PlanLaws.GuardedIsNested | backend/ent/account_query.go:858-865 | Unless a traversal query was told not to be unique, a root query of table rows has no duplicates and the batched result is the nested lookup. |
| PlanLaws.DistinctLast | backend/ent/account_query.go:860-865 | Taking DISTINCT first or last, before the window, selects the same rows in the same order. |
| PlanLaws.DuplicatesDiffer | backend/ent/account_query.go:752-784 | With unique switched off, an account met twice along a traversal path, with one child, is an input where the two differ. |
| EagerResults.AllBuildsNested | backend/ent/account_query.go:307-314 | The objects that a run delivers are, position by position, the trees of the nested lookup. |
| EagerResults.NoKeyErrors | backend/ent/account_query.go:773-781 | The key checks of the loaders never fire in a run, at any depth: its only error is a selected field that is no column. |
| KeyLaws.RunFollows | backend/ent/account_query.go:688-844 | At every depth of a run's result each neighbour is a row of the table its edge leads to, with the key its owner has: `proxy_id`, `parent_account_id`, `account_id` or `group_id` of the owner for to-one edges, its own `parent_account_id` or `account_id` for to-many edges, and a membership row for groups. |
| EagerResults.AllFollows | backend/ent/accountgroup_query.go:379-436 | The same for the objects that `All` returns: a membership's account has the id in its `account_id`, its group the one in its `group_id`. |
| EagerResults.AllComplete | backend/ent/account_query.go:688-844 | And nothing is missed: without edge windows and duplicate roots, a to-one edge is missing exactly when no row of its table has the key and meets the caller's conditions, and a to-many edge holds every row that does. |
| KeyLaws.RunLoads | backend/ent/account_query.go:571-623 | Every node of a result has exactly the edges that were asked for. |
| EagerResults.MembershipsShare | backend/ent/accountgroup_query.go:379-406 | Below an account query, any two membership rows with the same value in `account_id` hold one account object. |
| EagerResults.AccessorsRead | backend/ent/account.go:111-165 | The accessors tell an edge not asked for, a missing neighbour and the loaded neighbours apart, and return exactly the tree's neighbours. |
| Eager.QueryBuilder.All | backend/ent/account_query.go:550-625 | A run returns distinct objects that are the trees of the batched meaning, or its error. At every depth, all nodes reached along an edge hold one object per referenced id and per group. The builder tree is left as `After` says; after an error the builder keeps its own settings and edges. |
| Loaders.IndexByFk | backend/ent/account_query.go:720-733 | The id map of a to-one loader lists every referenced id once, in order of first appearance, with all nodes that reference it. |
| Loaders.AssignOne | backend/ent/account_query.go:741-749 | Every node that references a returned id, duplicates included, gets that neighbour; an id that was not asked for is an error. |
| Eager.LoadOne | backend/ent/account_query.go:688-750 | The to-one loaders fill each node's edge as the batched meaning says, and skip the query when nothing is referenced. |
| Loaders.AppendMany | backend/ent/account_query.go:770-783 | The to-many assign loop gives the last node with an id the returned rows with its key, in order, and no other node anything. |
| Eager.LoadMany | backend/ent/account_query.go:752-844 | The to-many loaders fill each node's edge as the batched meaning says and leave the IN list and the key column in the edge builder. |
| Loaders.ScanJoined | backend/ent/account_query.go:650-676 | The row hook keeps the first row of each group id and collects the accounts of each group in a set. |
| Loaders.AssignJoined | backend/ent/account_query.go:677-685 | In whatever order the inner map is walked, each account gets each of its groups once. |
| Loaders.AttachJoined | backend/ent/account_query.go:650-686 | For any join rows, in any interleaving and with any repetition, the hook and the assign loop leave the last node with an id with exactly its joined groups, each once, in order of first appearance, earlier duplicates with none, and one object per group for all nodes. |
| Eager.LoadJoined | backend/ent/account_query.go:627-686 | On the join rows of its query, group by group in the order of the group query, the loader fills each node's edge as the batched meaning says. |
| Eager.QueryBuilder.RunEdge | backend/ent/accountgroup_query.go:334-436 | One edge's loader leaves the builders of the other edges and the other edges of the nodes untouched; the template is the one of the membership query's two edges. |
| EagerLaws.SelectColumnsLaws | backend/ent/account_query.go:866-880 | A projected query selects the id first and only once, every field asked for, and the foreign key of every to-one edge it loads. |
| RowLaws.SelectOrdered | backend/ent/account_query.go:894-900 | The selected rows are ordered by every ranking: an earlier row is tied with a later one in all of them, or is lower in the first that tells the two apart. |
| RowLaws.RunOrdered | backend/ent/accountgroup_query.go:481-487 | So are the entities of a run that selects all columns. |
| RowLaws.FirstLeast | backend/ent/account_query.go:208-217 | Without an offset `First` returns a row that meets the conditions and that no other such row comes before, and not-found only if no row meets them. |
| RowLaws.SelectCounts | backend/ent/account_query.go:858-887 | Without a window each row comes back as often as the table or the path has it, once under DISTINCT, if every caller's test passes and every IN list holds its key. |
| RowLaws.KeepExact | backend/ent/account_query.go:881-887 | A row meets the conditions exactly when it passes every test and its key is in every IN list. |
| RowLaws.SelectWindow | backend/ent/account_query.go:888-893 | An offset skips exactly that many of the first rows, and a positive limit bounds what is left. |
| RowLaws.ScanSkips | backend/ent/account_query.go:928-935 | The scanning path skips the same rows, returns none for a zero limit, and at most 2147483647 for an offset alone. |
| RowLaws.ProjectKeeps | backend/ent/account_query.go:866-880 | A projected entity has the table's values in exactly the columns asked for, the id, and the foreign keys of the to-one edges it loads. |
| RowLaws.RefusedExact | backend/ent/account_query.go:534-540 | A query is refused for the first selected field that is no column of its table, and for nothing else. |
| EagerLaws.ProjectionKeepsEdges | backend/ent/account_query.go:762-783 | Selecting fields on the root changes no loaded edge and no error, whatever windows the edge queries have. |
| EagerLaws.ManyPartition | backend/ent/account_query.go:752-844 | With distinct parents each list is the order-preserving filter of the returned rows by the parent's id, and the lengths sum to the number of rows, which the edge's limit bounds. |
| EagerLaws.LimitAgrees | backend/ent/account_query.go:769-773 | In rows: a limited to-many batch splits into the limited queries of its parents exactly when it fits the limit or belongs to one parent; otherwise even the number of rows differs for some parent. |
| LimitLaws.LimitedLists | backend/ent/account_query.go:752-844 | Every parent of a limited one-to-many edge (distinct parents, no offset) receives the list of its own limited query exactly under that condition. |
| FailingInputs.LimitedListsDiffer | backend/ent/account_query.go:752-784 | Two accounts with one child each and a limit of 1: one misses its child. |
| LimitLaws.LimitedOnes | backend/ent/account_query.go:720-750 | Every node of a limited to-one edge (no offset) receives the neighbour of its own limited query exactly when all referenced rows fit the limit together. |
| FailingInputs.LimitedOnesDiffer | backend/ent/account_query.go:720-750 | Two accounts with different parents and a limit of 1: one misses its parent. |
| GroupLimits.LimitedGroups | backend/ent/account_query.go:627-687 | Every account of a limited many-to-many edge (distinct accounts, no offset) receives the groups of its own limited query exactly when the first join rows up to the limit hold every join row, or all join rows are one account's and those first ones do not repeat. |
| FailingInputs.LimitedGroupsDiffer | backend/ent/account_query.go:627-687 | Two accounts with one group each and a limit of 1: one misses its group. |
| EagerLaws.GroupsOnce | backend/ent/account_query.go:627-687 | In the batched meaning an account ends with exactly its joined groups, each once, in order of first appearance in the batch. |
| EagerLaws.Rerun | backend/ent/account_query.go:720-783 | Running a builder again over the same data, with the IN lists of the first run left behind, gives the same result (no many-to-many edge). |
| EagerLaws.ReuseIff | backend/ent/account_query.go:762-768 | In rows: a to-many builder that was loaded for earlier parents selects what a fresh one would exactly when each row of the fresh load belongs to one of those. |
| LimitLaws.ReusedLists | backend/ent/account_query.go:752-784 | Under exactly that condition every parent (distinct ones) receives the list of a fresh builder. |
| FailingInputs.ReusedListsDiffer | backend/ent/account_query.go:752-784 | A builder loaded for account 1 misses the child of account 2. |
| LimitLaws.ReusedOnes | backend/ent/account_query.go:720-750 | A to-one builder loaded for earlier ids gives every node the neighbour of a fresh one exactly when each row of the fresh load is among those ids. |
| FailingInputs.ReusedOnesDiffer | backend/ent/account_query.go:720-750 | A builder loaded for parent 1 misses parent 2. |
| EagerLaws.CloneRuns | backend/ent/account_query.go:386-408 | A clone of any query tree has the same rows and the same edges. |
| EagerLaws.ClonedSame | backend/ent/account_query.go:386-408 | A clone has all settings of the original exactly when no level has a lock modifier. |
| Eager.QueryBuilder.Clone | backend/ent/account_query.go:388-408 | The clone is a wholly new builder tree with the same settings except the locks, at every level. |
| Eager.QueryBuilder.FirstOfClone | backend/ent/account_query.go:208-217 | A terminal operation on a clone, which sets its limit for good, leaves the original's settings as they were. |
| LimitLaws.PrefixIff | backend/ent/account_query.go:208-217 | The limit that a terminal operation sets cuts the result to a prefix with the same edges exactly when no node that the cut makes the last with its id has to-many neighbours (edge queries without windows). |
| LimitLaws.LimitIsPrefix | backend/ent/account_query.go:208-217 | With distinct root ids it always does. |
| Eager.QueryBuilder.First | backend/ent/account_query.go:208-217 | The first result, or not-found, of the query with limit 1, or its error; the limit stays on the builder in every case. |
| Eager.QueryBuilder.Only | backend/ent/account_query.go:254-267 | The only result, not-found, or not-singular, of the query with limit 2, or its error; the limit stays on the builder in every case. |
| Eager.QueryBuilder.IDs | backend/ent/account_query.go:326-335 | Without a field list, the ids of the rows of the entity query, none after a zero limit, and at most the largest 32-bit number of them after an offset alone; with a field list, an error. The id stays appended to the fields, and a traversal query that was not told otherwise stays unique. |
| Eager.QueryBuilder.FirstID | backend/ent/account_query.go:230-240 | The first id under a limit of 1, not-found, or the scan's error; limit and id field stay on the builder. |
| Eager.QueryBuilder.OnlyID | backend/ent/account_query.go:281-295 | The only id under a limit of 2, not-found, not-singular, or the scan's error. |
| Eager.QueryBuilder.Exist | backend/ent/account_query.go:365-375 | Whether the query has a row, by way of its first id. |
| EagerLaws.ScanIsRun | backend/ent/account_query.go:326-335 | An id operation returns the ids of the entities that `All` returns exactly when neither a zero limit nor an offset without a limit sets the two apart. |
| FailingInputs.ScanDiffers | backend/ent/account_query.go:904-936 | With a zero limit `All` returns the accounts and `IDs` none. |
| EagerLaws.ScanTwice | backend/ent/account_query.go:326-335 | Whatever was selected before, the scan of a second id operation finds two columns for one value and fails. |
| CodecLaws.KindsAgree | backend/ent/account.go:168-417 | Each field's cell as allocated for scanning has the type that assigning asserts. |
| CodecLaws.ZeroExact | backend/ent/account.go:168-189 | Allocated cells hold no value, and the zero value of a field is a nil pointer or the zero of its type. |
| CodecLaws.DecodeTotal | backend/ent/account.go:168-417 | For any column list, unknown and repeated names allowed, cells allocated by the scanner are accepted, and decoding fails exactly on malformed JSON. |
| CodecLaws.DecodeColumnwise | backend/ent/account.go:193-417 | With distinct columns every field of the entity is its own cell stored over the initial value, and fields without a column are untouched. |
| CodecLaws.DecodeExact | backend/ent/account.go:193-417 | What each cell leaves in its field: its value, behind a pointer where the struct has one; for NULL what was there, but 0 for the id; a document is decoded into the one that was there. |
| CodecLaws.DecodeStops | backend/ent/account.go:193-417 | The first column with a cell of another type, or with malformed JSON, is the error. |
| CodecLaws.DecodePermutation | backend/ent/account.go:193-417 | Permuting distinct columns together with their cells gives the same entity and the same success. |
| Codec.ScanValues | backend/ent/account.go:168-189 | One empty cell of the right type per column. |
| Codec.Account.AssignValues | backend/ent/account.go:193-417 | The loop stores the columns from the left, stops at the first error, and refuses too few values. |
| Create.Mutation.Defaults | backend/ent/account_create.go:527-585 | Set fields are kept; after success every unset field with a default has its own, field by field, and no other field is added; a reported field is the first unset one whose function is nil, and is still unset. |
| Create.DefaultsByField | backend/ent/account_create.go:527-585 | After success each of the four function-valued and seven constant defaults is in its own field, unless that was set. |
| Create.DefaultsError | backend/ent/account_create.go:527-555 | The reported field is unset and its function nil, and every field before it was set or had a function. |
| Create.CheckExact | backend/ent/account_create.go:588-662 | The check passes exactly when every required field is set and every set field validates, and a reported failure is a true one. |
| Create.CheckFirst | backend/ent/account_create.go:588-662 | Of several failures the first in the order of the checks is reported. |
| Create.DefaultsThenCheck | backend/ent/account_create.go:527-662 | Whenever `defaults` fails the check fails; after it succeeds only name, platform, type or a validator can fail. |
| Create.CreateSpecLaws | backend/ent/account_create.go:682-891 | The returned node and the inserted row hold exactly the mutation's fields, the two edges included, and zero or NULL elsewhere. |
| Create.PointersAgree | backend/ent/account_create.go:682-891 | The blocks store a pointer exactly for the fields that are pointers in the struct. |
| Create.CreateReadBack | backend/ent/account_create.go:682-891 | Decoding the inserted row through any distinct columns gives the returned node on those fields and zero values on the rest. |
| Create.CreateReadWhole | backend/ent/account_create.go:664-680 | Decoding the inserted row through all columns, in any order, gives the entity that creating returned. |
| BulkPlan.WellBracketed | backend/ent/account_create.go:2138-2148 | For any builders and hooks the hook events nest like brackets, builder 0's first hook outermost. |
| BulkPlan.InsertOnce | backend/ent/account_create.go:2111-2136 | The batch insert happens at most once, exactly when there is a builder, every hook calls next and every check passes, and then receives all specs, non-nil, in builder order. |
| Bulk.Batch.Mutate | backend/ent/account_create.go:2108-2141 | A builder's mutator from any hook inwards returns the planned result with the planned events, fills nodes, specs, ids and done flags of the rest of the chain, and touches nothing of the builders before it. |
| Bulk.CreateBulk.Save | backend/ent/account_create.go:2095-2152 | A save runs `defaults` on all builders, drops their errors, and then does what the plan says: result, events, returned nodes with their ids, and done flags. It reports a constraint error exactly when all builders are ready and the insert is refused for a constraint, and an insert failure exactly for another refusal. The spec of a builder without hooks has each default in its own column. |
| BulkLaws.SaveExact | backend/ent/account_create.go:2111-2152 | A failed hook, check or insert is the result and leaves every mutation not done; otherwise the save succeeds exactly when no hook fails after its next, and a mutation is done exactly when no such hook lies further in. |
| BulkLaws.ErrorsExact | backend/ent/account_create.go:2108-2150 | Each error is reported exactly when: a constraint or an insert failure for the refusal of that kind with all builders ready; a failed check for the first builder that is not ready; a hook's error for the hook that fails instead of calling next, or, when nothing fails on the way in, for the innermost one that fails after its next. |
| BulkLaws.AtExact | backend/ent/account_create.go:2108-2148 | A call gets through a builder's hooks exactly when all call next; it stops at the first that does not. Passed on are the last hook's fields, and the builder's own mutation has those set before a hook passed on another one. |
| BulkLaws.DefaultsInserted | backend/ent/account_create.go:2101-2116 | At the insert the spec of a builder without hooks has every required field that was set, and for each unset field its own default. |
| BulkPlan.DownParts | backend/ent/account_create.go:2108-2136 | A builder's check comes behind all its hooks, and only if none stops; behind a passed check comes the next builder, or the insert. |
| BulkLaws.AllDone | backend/ent/account_create.go:2127-2136 | When all builders pass and the insert succeeds every mutation is done and its node is the created one with the id of its position. |
| BulkLaws.SilentSkip | backend/ent/account_create.go:2142-2150 | A reported success has inserted exactly when no hook has returned without calling next; otherwise the mutations before that builder are done although nothing was inserted. |
| BulkLaws.SkipsSilently | backend/ent/account_create.go:2142-2150 | One builder with a hook that returns at once: success, and no insert among the events. |
| BulkLaws.InsertChecked | backend/ent/account_create.go:2111-2126 | Under hooks that pass on the mutation they got, every inserted spec comes from fields that passed the check and holds every required column. |
| BulkLaws.SwapEvades | backend/ent/account_create.go:2112-2116 | A hook that passes on another mutation defeats this, whatever the hooks: for some fields the check passes and the inserted fields do not. |
| BulkLaws.SwapInserts | backend/ent/account_create.go:2111-2136 | Then the whole save still inserts, with a spec that lacks a required column. |
| BulkLaws.DroppedErrorBlocks | backend/ent/account_create.go:2103-2114 | An error of `defaults` that the save drops never lets a batch through unless a hook sets the field. |
| BulkLaws.NewValuesKeepCreation | backend/ent/account_create.go:2225-2235 | At the insert the resolver of `UpdateNewValues` keeps created_at exactly when some mutation passed on has one, and so whenever the hooks of one builder pass on what they got. |
| BulkLaws.NewValuesLoseCreation | backend/ent/account_create.go:2225-2235 | One builder with one hook that passes on an empty mutation of its own inserts without keeping created_at. |
| Bulk.Batch.KeepsCreatedAt | backend/ent/account_create.go:2225-2235 | The resolver, called by the insert, keeps created_at exactly when some builder's current mutation has it. |
| AuditParser.ParseExceptions | tools/check_pnpm_audit_exceptions.py:23-48 | The line loop is the fold of the lines' meanings, with the crash on an item line without a colon. |
| AuditParser.ItemHasText | tools/check_pnpm_audit_exceptions.py:34-42 | An item line always has text behind its dash, so no record starts out empty. |
| AuditParserLaws.ParseAppend | tools/check_pnpm_audit_exceptions.py:23-48 | Two blocks parse to the two parses in sequence if the second does not start in the middle of an item, errors included. |
| AuditParserLaws.ParseAppendOnly | tools/check_pnpm_audit_exceptions.py:43-45 | A block that does start in the middle of an item, and can be parsed, breaks this for some block before it. |
| AuditParserLaws.ParseAppendIff | tools/check_pnpm_audit_exceptions.py:23-48 | Exactly: a block composes with every block before it unless it starts in the middle of an item and can be parsed. |
| AuditParserLaws.Insertable | tools/check_pnpm_audit_exceptions.py:30-33 | Blank, comment and header lines, and lines that are neither item nor pair, can be put anywhere without effect. |
| AuditParserLaws.InsertableOnly | tools/check_pnpm_audit_exceptions.py:34-45 | Any other line has an effect somewhere. |
| AuditParserLaws.ParsePrint | tools/check_pnpm_audit_exceptions.py:12-48 | Items printed one quoted pair per line parse back to their records, for all clean keys and any values. |
| AuditParserLaws.TextRoundTrip | tools/check_pnpm_audit_exceptions.py:12-48 | A file written for any records over the five required fields parses back to them, for all newline-free values, with colons, quotes, hashes or edge spaces. |
| AuditParserLaws.OtherQuotes | tools/check_pnpm_audit_exceptions.py:12-20 | Single quotes are taken off like double ones, a bare value is taken as it is, and quotes that do not match stay. |
| AuditParserLaws.IgnoredLines | tools/check_pnpm_audit_exceptions.py:29-33 | Blank lines, comments and the two headers are ignored, however far indented. |
| AuditParserLaws.NoColonStops | tools/check_pnpm_audit_exceptions.py:34-42 | An item line without a colon stops the tool wherever it stands. |
| AuditParserLaws.OtherEnds | tools/check_pnpm_audit_exceptions.py:27-29 | Lines may also end in a carriage return, with or without a line feed, and the last need not end. |
| AuditGate.IterVulns | tools/check_pnpm_audit_exceptions.py:64-111 | The nested loops yield the entries of both report formats, or stop on a malformed report. |
| AuditLaws.VulnsExact | tools/check_pnpm_audit_exceptions.py:51-111 | The report is read exactly when it is well shaped, and then there is an entry exactly for each advisory and for each member of a `via` list that has an advisory. Name and advisory of an entry are the first truthy of the listed fields, each earlier one being falsy. |
| AuditLaws.AdvisoryPicks | tools/check_pnpm_audit_exceptions.py:51-81 | An advisory goes by the first truthy of github_advisory_id, url, first CVE, id, title, advisory and overview, and by module_name before name. |
| AuditLaws.TruthyExact | tools/check_pnpm_audit_exceptions.py:51-61 | Falsy are null, false, zero, and the empty string, list and object, and nothing else. |
| AuditLaws.ReportInOrder | tools/check_pnpm_audit_exceptions.py:64-111 | Entries come in the order of the report: advisories first, then vulnerabilities, each in theirs. |
| AuditLaws.ViaInOrder | tools/check_pnpm_audit_exceptions.py:84-111 | The entries of one vulnerability come in the order of its `via` list. |
| AuditLaws.AdvisoryAlone | tools/check_pnpm_audit_exceptions.py:64-81 | An advisory yields exactly one entry. |
| AuditLaws.ItemAlone | tools/check_pnpm_audit_exceptions.py:84-111 | A member of a `via` list yields one entry, with the first truthy of its fields as the advisory, or none. |
| AuditLaws.NumericSourceStops | tools/check_pnpm_audit_exceptions.py:89-109 | A `via` object with nothing but a numeric source stops the tool. |
| AuditGate.IndexExceptions | tools/check_pnpm_audit_exceptions.py:156-185 | There is no problem exactly when all exceptions are complete with valid dates and distinct keys, and the index holds each key's exception. |
| AuditGate.Decide | tools/check_pnpm_audit_exceptions.py:187-243 | The loop over entries, with its index and seen set, returns 0 exactly when the quantified policy holds. |
| AuditGate.Run | tools/check_pnpm_audit_exceptions.py:142-243 | The whole tool returns 0 exactly when the list parses, the report can be read, and the policy holds of the two. |
| AuditLaws.PassesEarlier | tools/check_pnpm_audit_exceptions.py:187-219 | What passes on a day passes on every earlier day. |
| AuditLaws.Reordered | tools/check_pnpm_audit_exceptions.py:191-219 | Reordering entries does not change the verdict when entries with equal keys have equal severities. |
| AuditLaws.EveryOrder | tools/check_pnpm_audit_exceptions.py:191-219 | The verdict is a pass in every order exactly when every relevant entry, not only the first with its key, has a valid exception of its severity. |
| AuditLaws.OrderDecides | tools/check_pnpm_audit_exceptions.py:203-215 | Otherwise the order can decide: two entries with one key pass in one order and fail in the other. |
| AuditLaws.WrittenVerdict | tools/check_pnpm_audit_exceptions.py:142-243 | The verdict on a list that was written out is the policy on the list itself. |
| AuditLaws.LoneAdvisory | tools/check_pnpm_audit_exceptions.py:142-243 | One advisory against a written list of one exception: accepted exactly if the exception is complete with a date, and, for a named high or critical advisory, has its package, its advisory and its severity (or a blank one) and has not expired. |
| AuditLaws.GhsaDecides | tools/check_pnpm_audit_exceptions.py:51-61 | With a module name and a GHSA those two decide, whatever url or other field the advisory also has. |
| AuditLaws.TwinsRefused | tools/check_pnpm_audit_exceptions.py:174-180 | Two exceptions with one package and advisory: nothing is accepted. |

## Left out

- SQL generation, drivers, transactions, contexts, interceptors and privacy rules (soft delete is an interceptor): a query returns exactly the filtered, ordered, windowed rows.
- DISTINCT compares whole rows; a membership query that selects some columns compares only those. A traversal path is a given sequence of start rows, and its joins are not modelled.
- Entities other than Account and AccountGroup appear as targets without edges of their own; GroupBy, Aggregate, Count and Modify.
- Negative limits and offsets. The library, which is not part of this model, is assumed to leave a zero limit or offset out of the entity query and to add no limit to its offset; the scanning path writes both as shown.
- A scan of ids takes one column only; wider selections fail in the library.
- EagerLaws.Rerun: does not cover trees with a many-to-many edge, whose loader adds its join a second time; what the database makes of the doubled join is SQL.
- EagerLaws.GroupsOnce: is about a group query without edges of its own, as the Group builder is not among the modelled files, and about join rows that come group by group; `Loaders.AttachJoined` covers any other order, for which the batched meaning fixes no order of groups.
- Eager.LoadJoined: likewise takes its join rows group by group.
- LimitLaws.LimitedLists: like `LimitedOnes` and `LimitedGroups`, is for edge queries without an offset, which skips rows of the whole batch.
- LimitLaws.PrefixIff: is for edge queries without windows, since a window on an edge is cut differently when the root has fewer rows.
- Loaders.ScanJoined: takes the join rows as given; the doubled scan buffers of the hook are not modelled.
- Eager.QueryBuilder.All: after an error it says nothing about the edge builders, some of which have been restricted by then.
- Eager.QueryBuilder.Clone: the nil receiver and the copying of slices are not modelled; settings are values.
- 64-bit width of ids, floating point rounding (`real`), time zones and the encoding of JSON documents (the codec is a parameter with an inverse law).
- Codec.Account.AssignValues: the entity after a decode error is not described; callers drop it.
- Create: `createSpec` and the field lists are folds over tables of fields instead of one block per field; conflict options and mutation edges to groups, children, usage logs and memberships are not part of a spec here.
- AccountCreate.Save for a single entity, upsert setters, and all update and delete builders.
- Bulk.CreateBulk.Save: requires that no builder and no mutation occurs twice, and takes hooks that edit only the mutation they are given, call next at most once and pass its error on; a hook that passes on a mutation of another entity type is not modelled.
- Bulk.Batch.KeepsCreatedAt: its answer is recorded with every insert; whether `UpdateNewValues` was asked for, and what the database then writes, is not modelled.
- BulkPlan: a refused insert leaves no ids in the specs.
- AuditGate: problems are kept by kind and position, not as message text; titles are dropped once joined; arguments, file reading and output are not modelled, and a crash has one kind for all malformed reports.
- AuditGate.IterVulns: collects before deciding, where the source yields lazily; the exit status is the same.
