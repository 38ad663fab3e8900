# Verified model of the persistence layer and the release tools

This project models, in Dafny, the parts of the repository whose behaviour is decided by loops, maps and recursion,
and proves what they are for.

**Eager loading** (`Schema`, `Plan`, `Eager`, `Builders`, `Loading`, `Selection`, `Refinement`, `Reruns`, `Stale`,
`StaleEdges`, `Isolation`, `Distribution`, `Ordering`, `Limits`, `Pages`, `Relations`, `Statements`). A query builder
is an object (`Builders.Query`) with a context object, predicates and one sub-builder per loaded edge. What it holds
is a value, a `Plan`; `Denotes` ties the two and says that no two builders of a tree share an object. A run prepares
the builder, selects rows, then sends one query per loaded edge for all rows at once, and hands the neighbours out
through hash maps. `Eval` is the result of such a batched run as a tree of values, `AfterRun` what it leaves in the
builders, `Passes` when it ends without an error; the methods of `Loading` are proved to compute exactly these on the
heap. `Naive` is the meaning of eager loading, one query per node and edge, and the main theorem is that the batched
run refines it at every depth (`Refinement.BatchedIsNaive`). What the nodes hold is stated over tables and columns as
well: at every depth a node shows the columns of its row that were asked for, and each loaded edge exactly the related
rows (`Relations.LoadedTruthfully`). The account and account-group builders are instances of one template; the model
is generic over a table of edges (`Schema.Edges`), which closes the recursion account -> account group -> account ->
...

**Creating accounts** (`AccountFields`, `AccountSchema`, `RowCodec`, `BulkCreate`, `BulkGuarantees`, `SingleCreate`,
`Creating`). `Creating.AccountCreateBulk.Save` runs its builders' mutators as a chain: mutator i runs its hooks,
checks builder i, fills spec i, and calls mutator i + 1; the last one inserts; then everything unwinds. The
continuation closures of the code are method calls indexed by builder and hook. `BulkCreate.Saved` is the same chain
as a function with a trace of events, and the guarantees are theorems about it for arbitrary hooks. `RowCodec` reads
the row back, and `AccountSchema` holds the generated defaults and checks against the schema they were generated from.

**The audit gate** (`Strings`, `ExceptionFile`, `AuditReport`, `AuditGate`, `AuditVerdict`, `AuditOrder`,
`SectionOrders`) and **the release counter** (`ReleaseVersion`): a line parser with a round trip, a decision procedure
with an exact acceptance condition, and an odometer.

What the proofs turned up about the code, each stated as a theorem:

- A run on a builder that loads groups orders an account's groups by their first appearance in the whole batch, not by
  the account's own links (`Ordering.JoinOrderDiffers`, `Ordering.UnorderedGroups`). As multisets they are the same
  (`Refinement.BatchedIsNaive`). In order they are the same, for every link table and batch, if and only if the order
  terms of the group query tell the groups it selects apart (`Ordering.OrderExact`).
- A limit or an offset on a nested query, on an edge of whatever kind, pages the batch, not each node's list. Both
  agree exactly if all rows are of one key, or the offset skips everything, or nothing is skipped or cut, or the whole
  page and all before it are of one key and no other key has more rows than the offset (`Pages.PagedRun`;
  `Limits.LimitedRun` for a limit alone). Two parents with a child each and a limit of one already differ
  (`Pages.OneChildEach`).
- `Clone` is documented to copy all steps, but leaves the modifiers (locks) out: the copy holds the same plan exactly
  if there are none (`Reruns.CloneExact`); it returns the same rows in any case (`Reruns.CloneReturnsSame`).
- Every run narrows the sub-builders again, so a builder run again on changed data sees the conjunction of all key
  sets. After any number of runs on any databases, an unpaged foreign-key edge holds what a fresh builder would find,
  for every node, exactly if every row the fresh one finds lies in the key set of every earlier run that queried the
  edge (`StaleEdges.StaleEdges`; `Stale.RerunExact` for the rows); otherwise a node loses a neighbour that exists
  (`Stale.Lost`, `Stale.RerunDiffers`).
- A builder that has loaded a group cannot be run again: the second run joins the link table a second time, which
  moves the column the loader reads the group's id from, and the first row ends the program. On one database the next
  run ends normally exactly if no many-to-many query of the first found a row (`Reruns.RerunExactly`,
  `Stale.JoinedTwice` for any two batches on any database, `Stale.GroupsTwice` for the plain query).
- In a bulk save a hook that returns success without calling the next mutator makes `Save` succeed without an insert
  (`BulkGuarantees.SavedSkips` says exactly when, `SkipWitness` shows it); and a hook that passes on another mutation
  gets it inserted unchecked, because `check` looks at the old one (`BulkGuarantees.SavedInserts`,
  `SwapBypassesCheck`; in `SwapWitness` an account without a name is inserted). A single save has neither weakness
  (`SingleCreate.SavedAloneHonest`).
- A JSON column that is read twice is merged, not replaced (`RowCodec.JsonMerges`).
- The verdict of the audit gate can depend on the order of the report (`AuditOrder.OrderMattersExample`). The order of
  a list of entries decides exactly if every relevant entry has an advisory and some entry about the same thing that
  is excused, but not every relevant entry is excused on its own (`AuditOrder.OrderDecides`). For a whole report,
  whose advisories always come first, `SectionOrders.ReportOrderDecides` and `SectionOrders.AdvisoryOrderDecides` say
  exactly when the order of its sections decides, and `SectionOrders.EveryReportOrder` when every order is accepted.
  Its comment says that a numeric `source` is dealt with, but a `via` item that has nothing else ends the program with
  exit code 1 (`AuditGate.NumericSourceRejected`), one of the shapes `AuditReport.ReadsExactly` lists.
- The successor of release 99.99.99 is printed, but is not a version (`ReleaseVersion.NextCounts`).

The generated Go code repeats one block per field or edge; the model goes through a table in the same order instead
(`AccountFields.AllFields`, `DefaultTable`, `Rules`, `Schema.Edges`). Where SQL leaves the order of rows open, the
model takes the order of the rows in the table, which is arbitrary.

## Model

| member | source | states |
|---|---|---|
| Builders.QueryContext.AppendFieldOnce | backend/ent/account_query.go:762-764 | afterwards the column is selected, what was selected before stays in place, and nothing but that column has been added, at most once |
| Builders.Query.constructor | backend/ent/client.go:803-809 | a client's new builder is empty but for the interceptors and shares nothing with any other |
| Builders.Query.Where | backend/ent/account_query.go:44-47 | appends predicates to this builder and changes nothing else it or its sub-builders hold |
| Builders.Query.Limit | backend/ent/account_query.go:50-53 | the last limit set is the one that counts; nothing else changes |
| Builders.Query.Offset | backend/ent/account_query.go:56-59 | likewise for the offset |
| Builders.Query.Order | backend/ent/account_query.go:69-72 | order terms accumulate |
| Builders.Query.Select | backend/ent/account_query.go:511-517 | selected fields accumulate |
| Builders.Query.Lock | backend/ent/account_query.go:942-963 | a row lock is a modifier; modifiers accumulate |
| Builders.Query.With | backend/ent/account_query.go:412-474 | the edge gets a fresh builder configured by the caller's options, whatever it had before, with no object of the tree shared |
| Builders.Query.Configure | backend/ent/account_query.go:44-72 | any sequence of configuration calls, nested ones included, leaves the plan the calls describe, in a tree without sharing |
| Builders.Query.Clone | backend/ent/account_query.go:388-408 | a fresh tree, one builder for every builder, that holds the same plan but for modifiers; nothing that existed is written |
| Builders.Query.Traverse | backend/ent/account_query.go:525-534 | every traverser appends its predicate, in order; fails exactly if an interceptor is not initialized, with exactly the traversers before the first such one applied |
| Builders.Query.CheckFields | backend/ent/account_query.go:535-539 | fails exactly if a selected field is not a column of the table |
| Builders.Query.PrepareQuery | backend/ent/account_query.go:524-548 | fails exactly if one of the two does; otherwise the builder is the prepared plan |
| Loading.QuerySpec | backend/ent/account_query.go:858-902 | the statement, the fetched columns and the loaded flags are those of the plan |
| Loading.AssignAll | backend/ent/account_query.go:566-571 | one new node per row in order, or per first row of an id in a joined statement, and the links seen per id |
| Loading.QueryNodes | backend/ent/account_query.go:550-583 | the new nodes carry the plan's entities in order, all distinct objects with empty edges; it fails exactly if the link table was joined twice and a row comes back |
| Loading.IndexNodes | backend/ent/account_query.go:753-761 | the ids of the batch in order, and the map from id to node |
| Loading.IndexKeys | backend/ent/account_query.go:689-700 | the distinct foreign keys in order, and per key the nodes that hold it; nil keys are skipped |
| Loading.AssignOwned | backend/ent/account_query.go:772-782 | every neighbour lands on the node its foreign key names, in order; an error exactly if one names no node |
| Loading.AssignReferenced | backend/ent/account_query.go:709-717 | every neighbour lands on every node holding its id; an error exactly if one was not asked for |
| Loading.AssignJoined | backend/ent/account_query.go:677-685 | every neighbour lands once on every account linked to it, in whatever order the accounts are visited |
| Loading.LinkedNodes | backend/ent/account_query.go:661-670 | the accounts collected for a neighbour are exactly those some joined row links to it |
| Loading.LoadOwned | backend/ent/account_query.go:752-844 | the one-to-many loaders resolve the edge of every node from one batch query; the only errors are those of that query |
| Loading.LoadReferenced | backend/ent/account_query.go:688-751 | the many-to-one loaders likewise; without a foreign key to follow no query is sent and the builder is untouched |
| Loading.LoadJoined | backend/ent/account_query.go:627-687 | the many-to-many loader likewise, also on a builder joined by earlier runs; the unexpected-node error is unreachable |
| Loading.LoadEdgeAt | backend/ent/accountgroup_query.go:379-436 | the same for any edge of any table, account groups included |
| Loading.LoadAllEdges | backend/ent/account_query.go:584-624 | the loaders run in edge order, each leaving the other edges and builders alone; the first error ends the run |
| Loading.SqlAll | backend/ent/account_query.go:550-625 | the nodes show the batched result as a tree on the heap, fresh objects throughout, and the builders hold what a run leaves in them |
| Loading.All | backend/ent/account_query.go:307-314 | a run returns the tree `Eval` says and leaves the plan `AfterRun` says, also after earlier runs of the same builder; it fails exactly if some builder it reaches does not prepare, or was joined before and gets a row |
| Selection.HitsMembers | backend/ent/account_query.go:880-900 | a statement returns rows of its table that satisfy every predicate, and without a page all of them |
| Selection.JoinMembers | backend/ent/account_query.go:638-646 | the join pairs exactly the accounts asked for with the rows they are linked to |
| Selection.JoinAllMembers | backend/ent/account_query.go:638-646 | joined once per run, the link table pairs the accounts of the last batch with the rows linked to them and to an account of every batch before |
| Selection.TraversersHold | backend/ent/schema/mixins/soft_delete.go:82-94 | no row that a traverser rejects, such as a soft-deleted one, becomes a node, at any depth |
| Selection.NodeRowsDistinct | backend/ent/account_query.go:550-583 | the nodes of one statement have distinct ids, carried to every level |
| Selection.KeysFetched | backend/ent/account_query.go:866-880 | whatever is selected, the id and the foreign keys of the loaded many-to-one edges are fetched |
| Selection.OwnersKnown | backend/ent/account_query.go:762-782 | every neighbour of a one-to-many batch names a node of the batch, also under a projection |
| Selection.KeysKnown | backend/ent/account_query.go:704-713 | every neighbour of a many-to-one batch has an id that was asked for |
| Selection.LinksKnown | backend/ent/account_query.go:638-681 | every neighbour of a join was hit, by an account of the batch |
| Relations.SameRelations | backend/ent/account/account.go:96-128 | the loaders follow the eight relations as they are written out over tables and foreign keys |
| Relations.EntityShows | backend/ent/account_query.go:866-880 | a node shows the id of its row and, unchanged, exactly the columns that have a value and were selected or are needed by a loaded pointer edge, or all of them where nothing is selected |
| Relations.LoadedTruthfully | backend/ent/account_query.go:550-844 | for every database and every eager-load tree without nested limits, not joined by an earlier run: at every depth a node shows its row, and each loaded edge holds exactly the rows of its table that are related to it and that its builder selects, each as often as the table has it |
| Relations.PointerShows | backend/ent/accountgroup_query.go:379-436 | a loaded pointer edge, such as the group of an account_groups row, is nil exactly if no row its foreign key names is selected, and otherwise shows that row |
| Statements.WhereExact | backend/ent/account_query.go:881-887 | every row returned satisfies every predicate of the caller and of the traversers, and an unpaged query returns each such row as often as the table has it, and no other |
| Statements.OrderTerms | backend/ent/account_query.go:894-900 | of two rows the earlier one has the smaller key in the first term that tells them apart |
| Statements.PageRows | backend/ent/account_query.go:888-893 | a page is the rows of the unpaged query behind the offset, up to the limit |
| Statements.ColumnsKnown | backend/ent/account/account.go:131-181 | the columns a query may select are those assignValues knows |
| Statements.KeyColumns | backend/ent/accountgroup/accountgroup.go:50-65 | a table has exactly the foreign keys that some edge follows |
| Statements.DecodersAgree | backend/ent/account.go:193-417 | what assignValues reads from a row over the fetched columns is what the node of the query shows |
| Refinement.BatchedIsNaive | backend/ent/account_query.go:550-844 | for every database and every eager-load tree without nested limits, not joined by an earlier run, the batched result is, at every depth, what a query per node and edge would give; many-to-many edges up to order |
| Refinement.Share | backend/ent/account_query.go:772-782 | picking a node's share out of the rows of the batch gives the rows, in order, of a query for the node alone |
| Refinement.OneRow | backend/ent/account_query.go:704-717 | a foreign key leads to at most one row |
| Refinement.JoinedRows | backend/ent/account_query.go:638-670 | which rows a join yields for an account does not depend on the batch it is part of |
| Refinement.LinkedShare | backend/ent/account_query.go:677-685 | an account's share of a join is, as a multiset, the join for that account alone |
| Reruns.RerunSame | backend/ent/account_query.go:704-736 | where no many-to-many query found a row, a second run on the same database returns what the first did, although every sub-builder has one more predicate |
| Reruns.EveryRunSame | backend/ent/account_query.go:550-625 | and so does the k-th run |
| Reruns.RerunPasses | backend/ent/account_query.go:524-548 | and the second run ends without an error if the first did |
| Reruns.RerunFails | backend/ent/account_query.go:638-670 | where one found a row, the second run fails |
| Reruns.RerunExactly | backend/ent/account_query.go:627-670 | so after a run without an error, the next one ends without one if and only if no many-to-many query found a row |
| Reruns.KeysConjoined | backend/ent/account_query.go:765-828 | on any sequence of databases, every row the k-th run of a neighbour query returns is in every key set so far |
| Stale.RerunPreds | backend/ent/account_query.go:765-828 | for a foreign-key edge, a row satisfies the statement of the k-th run if and only if it satisfies that of a fresh run and lies in every earlier key set |
| Stale.RerunFilters | backend/ent/account_query.go:704-828 | the k-th run of an unpaged neighbour query returns the rows of a fresh run, in order, that lie in every earlier key set |
| Stale.RerunExact | backend/ent/account_query.go:704-828 | so it returns what a fresh run would if and only if every row of the fresh run lies in every earlier key set |
| StaleEdges.StaleEdges | backend/ent/account_query.go:688-844 | after any number of runs of a whole builder on any databases, every node has the neighbours a fresh run finds along an unpaged foreign-key edge if and only if each of them lies in the key set of every earlier run that queried the edge |
| Stale.StaleEdge | backend/ent/account_query.go:689-720 | after a run, a pointer edge of a later run is nil for every node whose key was not in the first batch, whatever the database holds by then |
| Stale.SameNodes | backend/ent/account_query.go:550-583 | the nodes of a later run are those of a fresh run; only their edges can differ |
| Stale.Lost | backend/ent/account_query.go:689-720 | a node whose foreign key is new since the first run gets its neighbour from a fresh builder, and nil from the one run before |
| Stale.RerunDiffers | backend/ent/account_query.go:307-314 | an account whose proxy changes between two runs of one builder has no proxy after the second, whatever the two ids |
| Stale.JoinedTwice | backend/ent/account_query.go:638-670 | a second run of a many-to-many query can assign its rows, on any database and for any two batches, if and only if no selected group is linked to an account of each batch |
| Stale.SecondRunFails | backend/ent/account_query.go:638-670 | a builder that selects a group linked to one of its accounts cannot be run twice on the same data |
| Stale.GroupsTwice | backend/ent/account_query.go:307-314 | the plain query for accounts with their groups runs once and not a second time, for one account linked to one group |
| Reruns.CloneExact | backend/ent/account_query.go:388-408 | a clone holds the same plan if and only if no builder of the tree has a modifier |
| Reruns.CloneReturnsSame | backend/ent/account_query.go:388-408 | a clone returns what the original returns, modifiers or not |
| Reruns.ClonePasses | backend/ent/account_query.go:388-408 | and reports an error exactly if the original would |
| Reruns.ProjectionSafe | backend/ent/account_query.go:866-880 | with any selected fields, repeats included, nodes have the ids and the loaded edges of the unprojected query |
| Reruns.FetchedExactly | backend/ent/accountgroup_query.go:456-467 | a projected statement fetches the id first and once, the selected fields, the keys of loaded many-to-one edges, and nothing else |
| Isolation.Fork | backend/ent/account_query.go:388-474 | however a clone is configured and run, the original still holds its plan |
| Isolation.Snapshot | backend/ent/account_query.go:388-474 | however the original is configured and run, a clone taken before returns what the original would have returned then, errors included |
| Isolation.RunRepeatedly | backend/ent/account_query.go:307-314 | running a builder any number of times returns, the last time, the result of the first; it fails if and only if the first run does, or a second one follows a run whose many-to-many queries found a row |
| Distribution.OwnersConserve | backend/ent/account_query.go:752-844 | every neighbour of a one-to-many batch is attached to exactly one node: the edge lengths add up to the neighbours |
| Distribution.KeysExact | backend/ent/account_query.go:689-700 | the ids sent to the database are exactly the non-nil foreign keys, without repeats |
| Distribution.PointerMeaning | backend/ent/account_query.go:709-717 | a pointer edge is a returned neighbour with the node's key, and nil exactly if there is none |
| Distribution.AccessorExact | backend/ent/account.go:120-138 | a pointer accessor answers NotLoaded exactly if the edge was not asked for, NotFound exactly if the key is nil or dangling |
| Distribution.SliceAccessorExact | backend/ent/account.go:111-165 | a slice accessor answers NotLoaded exactly if the edge was not asked for, and never NotFound |
| Distribution.JoinDistribution | backend/ent/account_query.go:661-685 | for any joined rows in any interleaving, an account's list has each id it was joined to once and no other |
| Distribution.LoadedJoin | backend/ent/account_query.go:627-687 | a loaded many-to-many edge is the linked rows in order of first appearance over the whole batch |
| Ordering.HitsSorted | backend/ent/account_query.go:895-901 | a statement returns its rows in the order of its terms |
| Ordering.OrderedJoin | backend/ent/account_query.go:627-687 | where the order terms tell apart the groups that the query selects, an account's groups come in the order of the query for that account alone, whatever the batch |
| Ordering.OrderExact | backend/ent/account_query.go:627-687 | for any groups and any group query without a page, every loaded group edge equals the looked-up one, order included, on every link table and batch, if and only if its order terms tell the selected groups apart |
| Ordering.JoinOrderDiffers | backend/ent/account_query.go:664-684 | any two groups that the query selects and does not order come in the other order for an account loaded behind another one, in the trees of a whole run |
| Ordering.UnorderedGroups | backend/ent/account_query.go:664-684 | the plain query for accounts with their groups is such a query |
| Limits.AloneRows | backend/ent/account_query.go:627-844 | what a query for one key finds is that key's share of the unlimited batch, in the same order, on all three kinds of edge |
| Limits.LimitExact | backend/ent/account_query.go:627-844 | with a limit on the nested query, every key gets the rows of its own limited query if and only if the batch fits the limit or has rows of one key |
| Limits.LimitedEdges | backend/ent/account_query.go:627-844 | the same for the neighbours on the edges of a batch, of whatever kind; account_groups links a pair at most once |
| Limits.LimitedRun | backend/ent/account_query.go:307-314 | and for the trees of a whole run against one query per node |
| Pages.PageExactRows | backend/ent/account_query.go:627-844 | for any rows, offset and limit, every key gets its own page out of the page of the batch if and only if one of the four harmless cases holds |
| Pages.PageExact | backend/ent/account_query.go:627-844 | the same for the statement of a batch against the statement for one key, on all three kinds of edge |
| Pages.PagedEdges | backend/ent/account_query.go:627-844 | and for the neighbours on the edges of a batch |
| Pages.PagedRun | backend/ent/account_query.go:307-314 | and for the trees of a whole run against one query per node |
| Pages.OneChildEach | backend/ent/account_query.go:752-784 | a run on two parents with a child each, limited to one child, differs from one query per parent |
| AccountFields.FillKeeps | backend/ent/account_create.go:527-585 | defaults overwrite no field that is set and add only what the table of defaults says |
| AccountFields.FillOutcome | backend/ent/account_create.go:527-585 | they fail exactly on an unset field whose default is not initialized, which stays unset |
| AccountFields.DefaultsIdempotent | backend/ent/account_create.go:527-585 | defaults are idempotent, error included |
| AccountFields.CheckExact | backend/ent/account_create.go:588-662 | check accepts exactly the drafts in which every field that is not nillable is set and every validated field is valid |
| AccountFields.DefaultErrorCaught | backend/ent/account_create.go:2105-2111 | a failure of defaults is always caught by check, so dropping its error loses nothing |
| AccountFields.CallerSets | backend/ent/account_create.go:527-662 | after defaults, check passes if and only if the caller set name, platform and type, nothing set is invalid, and no default that is needed is uninitialized |
| AccountSchema.DefaultsAsDeclared | backend/ent/schema/account.go:47-203 | after defaults a field has the value it was set to or else the default its schema declares; they fail exactly if one that is needed was never initialized |
| AccountSchema.CheckAsDeclared | backend/ent/schema/account.go:47-203 | check accepts a draft if and only if every field not declared optional is set and every set field is within its declared limits |
| AccountSchema.FirstErrorReported | backend/ent/account_create.go:588-662 | the error is about the first field, in the order of the checks, that is missing or beyond its limits, and says which |
| AccountSchema.EdgesAsLoaded | backend/ent/account_create.go:804-904 | the insert names the edges that are set, each under the table and column that queries load it through |
| AccountFields.FieldSpecsExact | backend/ent/account_create.go:688-803 | the insert names exactly the fields that are set, with their values |
| AccountFields.FieldSpecsOnce | backend/ent/account_create.go:688-803 | and names each once |
| RowCodec.KindsAgree | backend/ent/account.go:168-416 | the switch of scanValues and the type assertions of assignValues agree on every column |
| RowCodec.ScanValues | backend/ent/account.go:168-189 | one empty slot of the column's kind per column |
| RowCodec.AccountNode.AssignValues | backend/ent/account.go:193-417 | the account is updated column by column up to the first error, which is returned |
| RowCodec.OnlyJsonFails | backend/ent/account.go:193-417 | on slots made by scanValues it fails exactly if a JSON value does not parse |
| RowCodec.LastValueWins | backend/ent/account.go:193-417 | with any columns in any order, a field ends as its last value that is not NULL |
| RowCodec.NoValueKeeps | backend/ent/account.go:193-417 | a field for which only NULLs are read keeps what it had |
| RowCodec.JsonMerges | backend/ent/account.go:249-264 | a JSON field ends as its last document laid over what was there; it is that document exactly if no earlier entry survives |
| RowCodec.LastIDWins | backend/ent/account.go:199-204 | the id ends as its last occurrence, NULL as 0 |
| RowCodec.UnknownSelected | backend/ent/account.go:412-414 | a column the account does not know ends in the selected values, its last occurrence |
| RowCodec.OwnColumns | backend/ent/account_create.go:824-857 | of the edges of an insert exactly the many-to-one ones are columns of the row |
| RowCodec.RowExact | backend/ent/account_create.go:682-904 | the row an insert writes has exactly the cells of the account createSpec returns |
| RowCodec.WrittenOnce | backend/ent/account_create.go:682-904 | no column is written twice |
| RowCodec.RowRoundTrip | backend/ent/account.go:168-417 | inserting and reading back, through any list of columns that covers what was written, in any order and with repeats, gives createSpec's account with its id |
| BulkCreate.HooksNest | backend/ent/account_create.go:2106-2149 | for any hooks whatever, hook calls are well nested |
| BulkCreate.PassThroughTrace | backend/ent/account_create.go:2106-2149 | with pass-through hooks the trace is the way in, the insert or the check that fails, and the mirror image of the way in; hook 0 of builder 0 is outermost and check i follows createSpec of every builder before |
| BulkGuarantees.AtMostOneInsert | backend/ent/account_create.go:2106-2137 | for any hooks there is at most one insert, after every check passed, with every builder's current contents in order; success means inserted exactly if no hook skipped |
| BulkGuarantees.AllOrNothing | backend/ent/account_create.go:2131-2145 | without skipping hooks, the mutations marked done are a suffix of the builders, none unless the insert succeeded, all if the run did, with the reported ids |
| BulkGuarantees.SkipExact | backend/ent/account_create.go:2106-2149 | for any hooks and any check, a chain that reports success has inserted if and only if no hook skips |
| BulkGuarantees.SavedSkips | backend/ent/account_create.go:2095-2152 | the same for a save of account builders |
| BulkGuarantees.SkipWitness | backend/ent/account_create.go:2095-2152 | two valid accounts, the second with a hook that skips: success, the first marked done, nothing inserted, whatever the database answers |
| BulkGuarantees.SavedAllOrNothing | backend/ent/account_create.go:2095-2152 | the same for a whole save, with its early ends: a builder error, or no builders |
| BulkGuarantees.SavedIDs | backend/ent/account_create.go:2132-2137 | after a success without skipping hooks, mutation and node j have the id that the database's reply to the one batch holds at place j, or 0 where it holds none, and spec j of the batch is builder j's |
| BulkGuarantees.SavedNests | backend/ent/account_create.go:2095-2152 | nesting and mirror symmetry for a whole save |
| BulkGuarantees.InsertExact | backend/ent/account_create.go:2106-2137 | for any hooks, the insert is reached if and only if every hook passes on and every check accepts the edits made before the first swap; what is inserted has all the edits |
| BulkGuarantees.SavedInserts | backend/ent/account_create.go:2095-2152 | the same for a save of account builders, with their defaults and the specs of the batch |
| BulkGuarantees.CheckedUnlessSwapped | backend/ent/account_create.go:2111-2116 | a builder none of whose hooks passes on another mutation is inserted with contents check has accepted |
| BulkGuarantees.SwapBypassesCheck | backend/ent/account_create.go:2111-2116 | take any save that reaches the insert and any swapping hook of any builder: whatever draft it passes on instead is inserted unchecked, with the edits of the hooks behind it |
| BulkGuarantees.SwapWitness | backend/ent/account_create.go:2111-2116 | a valid account with one swapping hook: what is inserted has no name |
| BulkGuarantees.InsertedComplete | backend/ent/account_create.go:2105-2125 | no account is inserted with a mandatory field missing, defaulted or not, whatever its hooks set, unless one swaps the mutation |
| SingleCreate.SingleHonest | backend/ent/ent.go:568-599 | a single save inserts at most once, and what it inserts has been checked, for any hooks, swapping and skipping included |
| SingleCreate.SavedAloneHonest | backend/ent/account_create.go:497-502 | an account is returned exactly on success, and then was checked, inserted and marked done, and is its draft with the id the database reported |
| SingleCreate.SavedAloneInserts | backend/ent/account_create.go:497-502 | a single save inserts if and only if its defaults are initialized, no hook is nil, its hooks pass on, and check accepts the final draft, swapped or not |
| SingleCreate.BulkLikeSingles | backend/ent/account_create.go:2095-2152 | a bulk save reaches the insert if and only if each builder saved alone would: without hooks, and with hooks that do not swap where the defaults are initialized |
| Creating.AccountCreate.Defaults | backend/ent/account_create.go:527-585 | the mutation and the error are those of the table of defaults |
| Creating.AccountCreate.Check | backend/ent/account_create.go:588-662 | the first violation in the order of the checks |
| Creating.AccountCreate.CreateSpec | backend/ent/account_create.go:682-904 | the account and the insert built side by side are those of the draft |
| Creating.AccountCreate.SqlSave | backend/ent/account_create.go:664-680 | one check, one insert, then id and done |
| Creating.AccountCreate.Wrapped | backend/ent/ent.go:575-590 | the hooks around it, with the contents of the mutation in flight copied into the builder's before the check |
| Creating.AccountCreate.WithHooks | backend/ent/ent.go:567-599 | a nil hook is an error before any hook runs, and a result that is no account is one afterwards |
| Creating.AccountCreate.Save | backend/ent/account_create.go:497-502 | a single save on the heap is `SavedAlone` |
| Creating.AccountCreateBulk.Mutate | backend/ent/account_create.go:2106-2149 | mutator i on the heap is mutator i of the chain, whatever mutation it is given |
| Creating.AccountCreateBulk.Core | backend/ent/account_create.go:2107-2145 | check, createSpec, the rest of the chain and the end |
| Creating.AccountCreateBulk.Save | backend/ent/account_create.go:2095-2152 | a bulk save on the heap is `Saved`: nodes, error, trace and every mutation's final contents |
| ExceptionFile.ParseExceptions | tools/check_pnpm_audit_exceptions.py:23-48 | the loop reads what the line-by-line definition reads |
| ExceptionFile.FileRoundTrip | tools/check_pnpm_audit_exceptions.py:12-48 | writing any list of records and reading the file gives it back, with values bare, in single or in double quotes, and lines indented and ended in any way |
| ExceptionFile.RendersBack | tools/check_pnpm_audit_exceptions.py:23-48 | the lines written for any list of records parse to exactly these records, in order |
| ExceptionFile.PairBack | tools/check_pnpm_audit_exceptions.py:12-20 | splitting a written pair gives the pair back: any value in quotes, and a bare one if and only if it has no edge spaces and does not begin and end with the same quote |
| ExceptionFile.SplitPadded | tools/check_pnpm_audit_exceptions.py:12-20 | space around the key and the value is dropped; the first colon is the one that counts |
| ExceptionFile.LoneQuote | tools/check_pnpm_audit_exceptions.py:16-19 | a value that is a single quote character reads as empty |
| ExceptionFile.NextLineExact | tools/check_pnpm_audit_exceptions.py:29-45 | inside a record a new key reads back if and only if a line can start with it |
| ExceptionFile.SkippedLines | tools/check_pnpm_audit_exceptions.py:29-33 | blank lines, comments and header lines change nothing, wherever they stand |
| ExceptionFile.IgnoredLines | tools/check_pnpm_audit_exceptions.py:29-45 | so do lines without a colon that open no record |
| ExceptionFile.BeforeFirst | tools/check_pnpm_audit_exceptions.py:28-45 | and everything in front of the first record |
| ExceptionFile.IndentFree | tools/check_pnpm_audit_exceptions.py:29 | indentation and trailing space change nothing |
| ExceptionFile.EndingsRead | tools/check_pnpm_audit_exceptions.py:27-28 | nor do the line endings, nor whether the last line has one |
| ExceptionFile.FailsExactly | tools/check_pnpm_audit_exceptions.py:34-41 | reading fails exactly if some line opens a record and has no colon |
| ExceptionFile.RecordsNotEmpty | tools/check_pnpm_audit_exceptions.py:34-48 | no empty record is ever read |
| Strings.StripsSpace | tools/check_pnpm_audit_exceptions.py:29 | stripping takes white space off both ends and nothing else |
| Strings.StripPadded | tools/check_pnpm_audit_exceptions.py:29 | space put around a text makes no difference to what is left |
| AuditReport.YieldAll | tools/check_pnpm_audit_exceptions.py:64-111 | the loops yield what the definition yields, or crash where it does |
| AuditReport.YieldedExactly | tools/check_pnpm_audit_exceptions.py:51-111 | an entry is yielded if and only if an advisory gives it (named by module_name before name, identified by GHSA id, URL, first CVE, number, title, advisory or overview, the first that is true), or a package does (one entry for each true identifier of a `via` item: GHSA id, URL, source, title or name, or the text itself) |
| AuditReport.GetExact | tools/check_pnpm_audit_exceptions.py:66-75 | looking up a key finds its value, and null without one |
| AuditReport.FalseValues | tools/check_pnpm_audit_exceptions.py:53-61 | what `or` passes over |
| AuditReport.ReadsExactly | tools/check_pnpm_audit_exceptions.py:64-111 | a report is gone through to the end if and only if every advisory is an object whose CVE list, where it is looked at, can be indexed, and every vulnerability is an object in whose `via` items the first true one of title, url, advisory and source, if there is one, is a text |
| AuditReport.NumericSourceCrashes | tools/check_pnpm_audit_exceptions.py:88-109 | so one item identified by a number only ends the program, whatever the rest of the report |
| AuditGate.IndexExceptions | tools/check_pnpm_audit_exceptions.py:163-192 | no errors if and only if every exception is well formed and keys are unique, and then the index holds exactly what they permit |
| AuditGate.CheckEntries | tools/check_pnpm_audit_exceptions.py:198-226 | nothing is reported if and only if every relevant entry has an advisory and the first of each key is excused |
| AuditGate.Gate | tools/check_pnpm_audit_exceptions.py:142-250 | exit code 0 if and only if the report is supported and can be read, no line of the file is broken, the exceptions are unambiguous, and the entries are covered |
| AuditVerdict.AcceptsExactly | tools/check_pnpm_audit_exceptions.py:142-250 | the acceptance condition over the fields themselves: which report is usable, which five fields an exception needs and when two are about the same thing, which severities count, and that each such vulnerability has an advisory and an exception of its severity that has not expired |
| AuditVerdict.AcceptedBefore | tools/check_pnpm_audit_exceptions.py:222-226 | what is accepted on a day was accepted on every day before |
| AuditGate.NumericSourceRejected | tools/check_pnpm_audit_exceptions.py:88-109 | with an item identified by a number only the exit code is 1, whatever the exceptions |
| AuditOrder.ExceptionOrder | tools/check_pnpm_audit_exceptions.py:163-192 | the verdict does not depend on the order of the exceptions |
| AuditOrder.EveryOrder | tools/check_pnpm_audit_exceptions.py:198-226 | the entries pass in every order if and only if each of them is excused on its own |
| AuditOrder.SomeOrder | tools/check_pnpm_audit_exceptions.py:198-226 | they pass in some order if and only if every relevant one has an advisory and an excused one about the same thing |
| AuditOrder.OrderDecides | tools/check_pnpm_audit_exceptions.py:198-226 | so their order decides the verdict if and only if the second holds and the first does not |
| AuditOrder.SeenSetExact | tools/check_pnpm_audit_exceptions.py:198-226 | where severities agree, the seen set changes nothing |
| AuditOrder.ReportOrder | tools/check_pnpm_audit_exceptions.py:198-226 | and the verdict does not depend on the order of the entries |
| AuditOrder.OrderMatters | tools/check_pnpm_audit_exceptions.py:211-222 | where an exception fits one of two entries about the same advisory, their order decides |
| AuditOrder.FileOrder | tools/check_pnpm_audit_exceptions.py:142-250 | two files with the same exceptions in any order give the same exit code |
| AuditOrder.WrittenOrder | tools/check_pnpm_audit_exceptions.py:142-250 | likewise for the same records written in any order |
| AuditOrder.SectionOrder | tools/check_pnpm_audit_exceptions.py:142-250 | likewise for a report with its sections permuted, where entries about the same thing agree on severity |
| AuditOrder.OrderMattersExample | tools/check_pnpm_audit_exceptions.py:211-222 | where they do not: an audit report with two advisories passes one way round and fails the other, with any file that holds one exception |
| SectionOrders.EveryReportOrder | tools/check_pnpm_audit_exceptions.py:142-250 | a report is accepted in every order of its sections if and only if all else is in order, every relevant advisory entry is excused, and so is every relevant package entry that no relevant advisory entry is about |
| SectionOrders.SomeReportOrder | tools/check_pnpm_audit_exceptions.py:142-250 | it is accepted in some order if and only if all else is in order, every relevant advisory entry has an excused one about the same thing, and some order of the packages passes |
| SectionOrders.ReportOrderDecides | tools/check_pnpm_audit_exceptions.py:142-250 | so the order of a report decides the exit code if and only if the second holds and the first does not |
| SectionOrders.AdvisoryOrderDecides | tools/check_pnpm_audit_exceptions.py:142-250 | for packages with different names it does if and only if every package entry that needs an excuse has one and the order of the advisories decides |
| ReleaseVersion.ParseShow | tools/release_version.py:14-31 | parsing a printed version gives it back, if its components are in range |
| ReleaseVersion.ShowParse | tools/release_version.py:14-22 | printing a parsed version gives the text back without the space around it |
| ReleaseVersion.ParseExact | tools/release_version.py:14-22 | a text parses as a version if and only if, without the space around it, it is that version as printed, and the version is in range |
| ReleaseVersion.TooLargeExact | tools/release_version.py:18-22 | it is rejected as too large exactly if it is a version out of range as printed |
| ReleaseVersion.Surrounded | tools/release_version.py:15-31 | white space around a version changes nothing for the parser and the counter |
| ReleaseVersion.RankOrders | tools/release_version.py:25-31 | the count orders versions as their components do, and no two share a place |
| ReleaseVersion.NextCounts | tools/release_version.py:25-31 | the next version is one further in the count, and accepted unless it follows 99.99.99 |
| ReleaseVersion.StepsAt | tools/release_version.py:25-31 | counting n steps from 0.0.0 gives the n-th version, after a million steps 100.0.0, and then an error for good |
| ReleaseVersion.Reached | tools/release_version.py:25-31 | for every n, an accepted version is reached from 0.0.0 after n steps if and only if n is its rank |

## Left out

- SQL text, dialects, drivers, transactions, constraint errors and the effect of row locks: a statement is a selection from finite tables, or one batch insert that is stored or denied; loaders fail only where a builder does not prepare.
- Interceptors that replace or fail a query, and traversers that return an error: an interceptor here is not initialized, appends a predicate, or passes through.
- Hooks that swallow an error, call the next mutator twice, or edit another builder's mutation.
- Unique and DISTINCT, traversal paths (`Query*`), GroupBy, Aggregate, Scan, Count, First, Only and IDs, and upserts: their meaning is in libraries or in packages that are not part of this model.
- The own columns and edges of groups, proxies and usage logs: they are leaf tables here, whose query files follow the same template.
- Loading.All: models the end of the program on the first row of a repeated join as the error `BadColumn`; which of several joined rows comes first is then irrelevant.
- Reruns.RerunExactly: not for trees with an offset on a group query, which can hide the rows of the second join (`NoOffsets`).
- Isolation.RunRepeatedly: likewise.
- The difference between a nil and an empty slice, and the spare capacity of appended slices.
- Negative limits and offsets.
- Pages.PagedRun: not for an account_groups edge with an offset, whose nodes have no id and do not tell which rows they are made of; `Pages.PageExact` covers its rows.
- StaleEdges.StaleEdges: not for a nested query with a page, where an earlier key set also moves the page, nor for a foreign-key builder joined to the link table, which no loader does.
- SectionOrders.ReportOrderDecides: speaks of some order of the packages where names of packages differ only in white space around them; `SectionOrders.AdvisoryOrderDecides` has no such condition for names that are apart.
- Creating.AccountCreateBulk.Save: not for the same builder listed twice, whose two places would share one mutation, nor for a builder with a nil hook, on which a bulk save panics (a single save reports it).
- Statements.DecodersAgree: for rows whose values have the types of their columns, as inserts write them.
- Relations.LoadedTruthfully: not for nested queries with a page, which `Pages.PagedRun` is about, nor for builders that have run before, which `StaleEdges.StaleEdges` and `Stale.JoinedTwice` are about.
- RowCodec.AccountNode.AssignValues: does not model scan conversion errors of the driver; a value of the wrong type reads as NULL in `RowCodec.SlotOf`, and encoding/json is any pair of functions, assumed to invert each other only in the round trip.
- AccountFields.ValidText: does not model a validator that was never initialized, on which the code panics; lengths count bytes, which are the characters of the model's strings.
- The fields of the link rows that an insert with groups creates, and the rows it creates or updates in other tables.
- Text of error messages and of titles in the audit report, and the order in which problems are printed.
- AuditGate.Gate: does not model reading the two files, or the date library; strip, lower, str and the date parser are arbitrary functions there, and JSON numbers are integers.
- ReleaseVersion.Parse: does not model the non-ASCII decimal digits that the regular expression also accepts, nor the command line around it.
- Announcement, API key and auth identity builders, update and delete builders, and the release contract script: further instances of the same templates, or input and output.
