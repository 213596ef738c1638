# sql-mcp-server: a verified model

`sql-mcp-server` lets an agent read and write SQL databases through typed
tools. Its core compiles relational-algebra plans into one statement each,
guards and authorizes them, caches reads, pages them, merges configuration
workspaces, and shares scarce resources between callers. This project models
that core in Dafny and proves what it promises.

| part | modules |
|---|---|
| Query compiler: what a plan means node by node, what a SELECT means clause by clause, flattening, name resolution, the text written with its placeholders, reading it back, and which plans compile | `Relalg`, `SqlSelect`, `Flatten`, `Resolve`, `SelectCorrect`, `SelectGroups`, `SelectOrder`, `SortKeys`, `SelectMain`, `Printing`, `Parsing`, `RoundTrip`, `Statement`, `StatementParsing`, `StatementRoundTrip`, `ReadMeaning`, `Validate`, `Progress`, `Render`, `ReadBack`, `Compile`, `Acceptance`, `KeyPoints` |
| Where a plan and its statement part, and exactly when they do not | `Witnesses`, `OrderExactness`, `JoinExactness`, `AliasExactness`, `ExistsExactness`, `HavingExactness`, `GroupOrderExactness` |
| From plan to rows: the text compiled, read as SQL | `Execution` |
| Cost gate | `Gate`, `GateAdmits` |
| Workspace: three-way merge, difference, replay, open conflicts | `Values`, `Merging`, `MergeCorrect`, `MergeOrder`, `Diffing`, `DiffCorrect`, `DiffExact`, `Lenses`, `Workspace`, `Replay`, `Conflicts` |
| Read cache, its races with writers, what a write invalidates | `Expiries`, `TtlCache`, `CacheRaces`, `CacheTrace`, `Invalidation` |
| Cascading foreign keys: the check before a write, and what the database does to rows | `Cascades`, `CascadeRows`, `CascadePaths`, `CascadeExactness` |
| Keyset paging | `Paging`, `ReadOrders` |
| Execution bus | `Counts`, `Lanes`, `LaneAdmits`, `Semaphores`, `BusIo` |
| Join keys | `JoinKeys`, `JoinTuples` |
| Authorization | `Rbac`, `Entitlement`, `Authorizer` |
| Prepared statements | `Prepared`, `PreparedRuns`, `PreparedLaws`, `PreparedCache` |
| Session budgets | `Queues`, `Budget`, `BudgetSound`, `BudgetRuns`, `BudgetLaws`, `BudgetManager` |
| Explicit transactions | `Transactions`, `TransactionRuns`, `TransactionHistory`, `TransactionTable` |
| Shared lists, texts and buffers | `Lists`, `Texts`, `Buffers` |

Conventions. A predicate is true, false or unknown, as in section 6.34
(boolean value expression) of ISO/IEC 9075-2:2003; a SELECT is evaluated in the
order of its sections 7.4 (table expression) and 7.12 (query specification). A
database is any assignment of rows to relations with any total order on values,
any LIKE and any aggregate functions. A statement is a sequence of tokens:
quoted names, keywords and numbered placeholders. Where the source changes
state step by step the model is a class or a method with loops, each proved
equal to a function of the old state; the theorems are about those functions.
Where calls race, a run is any sequence of the steps the locks (or single
atomic operations) allow, and the theorems hold of every run.

A column written without its relation inside an EXISTS is the subquery's when
that has one of the name, as section 6.7 (column reference) of the same standard
resolves it.

Some properties fail on inputs the code accepts. Each has a family of inputs on
which it fails and the exact condition, over every database, under which it
holds.

- A plan that sorts and renames another output to the sort field's name is
  sorted by that output, because ORDER BY takes an output's name before a
  column's; and distinct rows cannot be ordered by what they do not select.
  `OrderExactness.OrderExact`: for any columns, any list of terms, distinct or
  not, limited or not, statement and plan agree if and only if the terms that
  decide the order are those the statement sorts by.
- A join that compares a column of the relation it joins with another of its own
  is not the join the plan means, and one under the read's own alias is refused
  (core/codegen/join.go:21-37 lets both pass). `JoinExactness.JoinExact`, which
  includes a relation joined to itself: they agree if and only if it does
  neither. A join that compares a column of one joined after it is refused by
  SQL. `JoinExactness.ScopeExact`: any number of joins agree if and only if none
  does.
- The columns of a join are named alias.column (core/relalg/relalg.go:152-156),
  and a name is cut at its first dot (core/codegen/codegen.go:218), so those of
  a dotted alias are taken for the read's own. `AliasExactness.DottedExact`.
- An EXISTS is written over the alias x1, x2 and so on (core/codegen/join.go:91-103),
  which hides a scan or a join of that alias. `ExistsExactness.ScanExistsExact`
  and `ExistsExactness.JoinExistsExact`.
- An EXISTS in HAVING compares columns, never calls, so a group-by field that a
  call takes the name of is compared in its place, and a name that is no group-by
  field has no value of its own. `ExistsExactness.HavingExact`.
- A condition in HAVING, or a sort term, on a name that is neither a group-by
  field nor a call is nothing to an aggregate's plan and a column to its
  statement. `HavingExactness.ConditionExact`: a condition agrees if and only if
  it names one of the two or is true of every value or of none.
  `GroupOrderExactness.GroupOrderExact`: an order agrees if and only if each term
  names one of the two or comes after terms that order every group already. The
  tools refuse such names (core/tool/tools_aggregate_impl.go:200-220), the
  renderer does not.
- An UPDATE or DELETE qualifies no column, so inside an EXISTS a column of the
  row written is taken for the subquery's of the same name.
  `ReadBack.WriteExact`: they agree if and only if the related relation has no
  column so named; `ReadBack.WriteTouchesMore` gives the text of a write that
  touches a row the plan does not. The tools refuse an EXISTS in a write
  (core/tool/tools_helpers.go:64), the renderer does not.
- Taking the other side's value of a conflict (core/workspace/conflicts.go:176-184)
  leaves the path without it when the value is of a list that by now has an
  element without a key, and drops what else the holder has when that is by now a
  list where the path steps by a property, or the other way round.
  `Lenses.SetThenGet` and `Lenses.SetKeepsApart` with `Lenses.SetLosesApart`: it
  does what it is for if and only if neither is so, or, for the first, the other
  side has no value there.
- The check of cascading writes (core/tool/cascade.go:23-87) takes every column
  a key copies on for one that may change, so an update of one column of a key of
  two is refused for what the database would cascade from the other.
  `CascadeExactness.PartRefusedForNothing` is such an update. What passes is
  always covered; `CascadeExactness.RefusalsExact`: whatever the policy, a refusal
  means a write the caller may not make can happen if and only if every effect
  checked ends a path of keys whose referenced columns change, or such a path ends
  where no entity is.
- The first denied field (core/rbac/rbac.go:624-631) is the empty string when
  there is none, so a request is not checked past a field without a name.
  `Rbac.ExactWhenNamed` proves the check exact if and only if no field is empty.

## Model

| member | source | states |
|---|---|---|
| `Flatten.FlattenKeepsMeaning` | core/codegen/render.go:52-156 | a chain in rank order, evaluated node by node on any database, gives the rows of its clauses applied in the order FROM, JOIN, WHERE, GROUP BY, HAVING, ORDER BY, SELECT, DISTINCT, LIMIT |
| `SelectMain.ClausesMean` | core/codegen/render.go:158-296 | clauses evaluated in SQL order return what they return in the chain's order, aggregate names replaced by their calls, whichever way NULLs are put last |
| `SelectMain.SelectMeans` | core/codegen/render.go:158-194 | every accepted chain whose names are placed returns, as one SELECT, exactly the rows it means with each sort term taken for the field ORDER BY takes it for |
| `SelectMain.SelectKeepsMeaning` | core/codegen/render.go:52-194 | every accepted, unambiguous chain returns, as one SELECT, the rows it means node by node, in order, on every database and dialect |
| `SelectMain.TermOrderValue` | core/codegen/render.go:242-296 | ORDER BY sorts a term by the field that takes its name: a call, a group-by field, a renamed output, or the column |
| `SelectMain.TiedGroups` | core/codegen/render.go:242-296 | no two groups of an aggregate tie on terms that name every group-by field no call takes the name of, so terms after them change nothing |
| `SelectMain.CaseThenColumn` | core/codegen/render.go:272-296 | without NULLS LAST, a CASE on NULL before the column compares two values exactly as the nullable term asks |
| `SelectMain.DistinctThenOrder` | core/codegen/render.go:196-216 | sorting distinct rows and removing duplicates from sorted rows give the same rows |
| `SelectCorrect.LookupResolved` | core/codegen/codegen.go:204-225 | the qualified column a name is written as holds the value the name refers to, whatever rows the joins found |
| `SelectCorrect.ResolvedMeans` | core/codegen/join.go:41-103 | a predicate with its columns qualified, EXISTS included, has the three-valued meaning it had |
| `OrderExactness.OrderExact` | core/codegen/render.go:272-296 | an ordered read of any columns and terms, distinct or not, limited or not, means in SQL what it means as a plan, on every database, if and only if the terms that decide its order are those the statement sorts by and distinct rows are ordered by what they select |
| `OrderExactness.TakenDiffers` | core/codegen/render.go:320-330 | when a deciding name is taken, there is a database on which the two return different rows |
| `OrderExactness.UnselectedRefused` | core/codegen/render.go:196-216 | when distinct rows are ordered by what they do not select, there is a database on which the statement has no result |
| `OrderExactness.OneTermKept` | core/codegen/render.go:272-296 | of a single term the condition is that no output takes its name for another field |
| `JoinExactness.JoinExact` | core/codegen/join.go:21-70 | a join of two relations, or of one with itself, means in SQL what it means as a plan, on every database, if and only if its alias is not the read's own and it compares no column of the joined relation with another of its own |
| `JoinExactness.OwnColumnDiffers` | core/codegen/join.go:74-88 | when it does, there is a database, one table for a self-join, on which the two return different rows |
| `JoinExactness.OwnAliasRefused` | core/codegen/join.go:55-70 | under the read's own alias the statement has no result, whatever the database |
| `AliasExactness.DottedExact` | core/codegen/codegen.go:213-225 | a join and a condition on its rows mean in SQL what they mean as a plan, on every database, if and only if the field does not start with a dotted alias |
| `AliasExactness.DottedDiffers` | core/codegen/codegen.go:218-219 | when it does, one row that has a column of that name tells them apart |
| `ExistsExactness.ScanExistsExact` | core/codegen/join.go:91-103 | a read that asks for related rows means in SQL what it means as a plan, on every database, if and only if its alias is not the one the subquery is given |
| `ExistsExactness.ScanExistsDiffers` | core/codegen/join.go:91-103 | when it is, two rows tell them apart |
| `ExistsExactness.JoinExistsExact` | core/codegen/join.go:74-103 | a read that joins and asks for related rows agrees if and only if the column it compares is of no relation the subquery's alias hides |
| `ExistsExactness.JoinExistsDiffers` | core/codegen/join.go:74-103 | when it is, two rows tell them apart |
| `ExistsExactness.HavingExact` | core/codegen/join.go:74-103 | an aggregate that asks for rows related to its groups agrees if and only if it compares group-by fields that no call takes the name of, under an alias the subquery's does not hide |
| `ExistsExactness.HavingDiffers` | core/codegen/join.go:77 | otherwise there is a database on which the statement keeps a group the plan does not |
| `JoinExactness.ScopeExact` | core/codegen/join.go:21-70 | any number of joins, otherwise sound, mean in SQL what they mean as a plan, on every database, if and only if none compares a column of one that comes after it |
| `JoinExactness.LaterRefused` | core/codegen/join.go:55-70 | when one does, the statement has no result, whatever the database |
| `HavingExactness.ConditionExact` | core/codegen/render.go:158-194 | a condition on the groups of any aggregate means in SQL what it means as a plan, on every database, if and only if it names a group-by field or a call, or is true of every value or of none |
| `HavingExactness.ConditionDiffers` | core/codegen/render.go:320-330 | otherwise one row, with a value the condition tells from NULL, tells them apart |
| `GroupOrderExactness.GroupOrderExact` | core/codegen/render.go:242-296 | an ordered aggregate, distinct or not, limited or not, means in SQL what it means as a plan, on every database, if and only if each term names a group-by field or a call, or, of rows that need not be distinct, comes after terms that order every group |
| `GroupOrderExactness.OneTells` | core/codegen/render.go:272-296 | otherwise one of two databases, alike to the plan, tells them apart, whatever is skipped and kept |
| `GroupOrderExactness.Refused` | core/codegen/render.go:196-216 | and distinct groups ordered by what they do not select have no result |
| `RoundTrip.PrintedParses` | core/codegen/render.go:382-461 | a printed predicate parses back, NOT tighter than AND tighter than OR, whatever follows it, to itself but for parentheses around a single operand |
| `Parsing.UnwrappedMeans` | core/codegen/render.go:382-420 | those parentheses never change its three-valued meaning |
| `ReadBack.WrittenReadsBack` | core/codegen/render.go:382-461 | what the renderer writes of any valid predicate, anywhere in a statement and among any other arguments, reads back with the same meaning |
| `ReadBack.WriteReadsBack` | core/codegen/render.go:501-535 | the WHERE of an UPDATE or DELETE, EXISTS included, read back with its arguments, is true of exactly the rows the plan's predicate is, where no EXISTS compares a column its own relation has |
| `ReadBack.WriteExact` | core/codegen/render.go:501-535 | a write bounded by an EXISTS over a relation of known columns means in SQL what the plan means, on every database and row, if and only if none of those columns has the name of one it is compared with |
| `ReadBack.WriteDiffers` | core/codegen/join.go:74-88 | when one has, a database and a row on which the EXISTS is true in SQL and false in the plan |
| `ReadBack.WriteTouchesMore` | core/codegen/render.go:501-535 | the text of such a write, read back, is true of a row the plan's predicate is not |
| `Statement.QueryBinds` | core/codegen/render.go:158-194 | the placeholders of a query, in the order they are written across select list, joins, WHERE, HAVING, ORDER BY and LIMIT, are 0, 1 and so on, one for each argument |
| `Statement.InsertBinds` | core/codegen/render.go:463-499 | so are an INSERT's, over all its tuples |
| `Statement.TupleTextAt` | core/codegen/render.go:463-499 | row r is written with the placeholders from r times the number of columns on |
| `Statement.TupleArgAt` | core/codegen/render.go:463-499 | and its value for column c is the argument of the c-th of them |
| `Statement.UpdateBinds` | core/codegen/render.go:501-518 | so are an UPDATE's, SET before WHERE |
| `Statement.SetArgs` | core/codegen/render.go:501-518 | the i-th assignment's argument is its own value |
| `Statement.DeleteBinds` | core/codegen/render.go:520-527 | so are a DELETE's |
| `Statement.CallBinds` | core/codegen/render.go:537-550 | so are a procedure call's |
| `StatementRoundTrip.QueryReadsBack` | core/codegen/render.go:158-330 | the text of a query with its arguments parses back to that query: select list, FROM, joins with their conditions, WHERE, GROUP BY, HAVING, ORDER BY, LIMIT and OFFSET, every placeholder to its own value |
| `StatementRoundTrip.InsertReadsBack` | core/codegen/render.go:463-499 | an INSERT parses back to its columns and tuples, each value in its row and column |
| `StatementRoundTrip.UpdateReadsBack` | core/codegen/render.go:501-518 | an UPDATE parses back to its assignments, each field with its own value, and its predicate |
| `StatementRoundTrip.DeleteReadsBack` | core/codegen/render.go:520-527 | a DELETE parses back to its predicate |
| `StatementRoundTrip.CallReadsBack` | core/codegen/render.go:537-550 | a call parses back to its arguments, in order |
| `ReadMeaning.ReadBackMeans` | core/codegen/render.go:158-230 | on every database the query parsed back has the result of the query printed |
| `Execution.CompiledReadMeans` | core/codegen/codegen.go:107-146 | the text and arguments an unambiguous read is compiled to, parsed as SQL and evaluated, give the rows the plan means node by node, in order, on every database and dialect |
| `Execution.CompiledWriteMeans` | core/codegen/codegen.go:107-146 | those of a write or call, parsed as SQL, are that write: its target, each column with its own value, and the rows it is bounded to |
| `Execution.AdmittedTextIsPrefix` | core/cost/cost.go:415-441 | whatever the plan, the database and the dialect, the text the gate lets run under a row cap, parsed as SQL and evaluated, gives a prefix, at most the cap long, of the rows the text it was asked about gives, all when they fit, and no result exactly when that gives none |
| `Execution.AdmittedTextMeans` | core/cost/cost.go:415-441 | so of an unambiguous plan it gives a prefix of the rows the plan means, and all when they fit |
| `Execution.AcceptedIsProper` | core/codegen/render.go:158-296 | whatever the renderer accepts is written without an empty list, an unqualified star of a join or a call without an argument: it parses back |
| `Compile.RenderedBinds` | core/codegen/codegen.go:107-146 | whatever the plan, the i-th placeholder in textual order is bound to the i-th argument |
| `Compile.RenderedReads` | core/codegen/codegen.go:107-146 | a rendered read is the text and the arguments of the query its clauses resolve to |
| `Validate.ValidIsWritable` | core/relalg/validate.go:40-107 | of a valid predicate the renderer refuses only an EXISTS inside a join's predicate |
| `Validate.ValidIsProper` | core/relalg/validate.go:71-92 | what is written of a valid predicate has no empty list and no call without an argument: it reads back |
| `Render.Builder.RenderPredicate` | core/codegen/render.go:382-420 | a predicate is written after what is there, its arguments after theirs, or refused exactly when it is not writable; the scope is left as it was |
| `Render.Builder.RenderCondition` | core/codegen/render.go:422-461 | a condition binds no argument for a NULL test, one for a comparison, one per element for IN, and refuses an empty or too long list |
| `Render.Builder.RenderExists` | core/codegen/join.go:91-103 | an EXISTS is written over a fresh alias and refused inside another scope |
| `Render.Builder.RenderOn` | core/codegen/join.go:74-88 | join pairs are written over the outer columns, then the predicate over those of the alias |
| `Render.Builder.Flatten` | core/codegen/render.go:81-156 | the clauses collected step by step are those of the chain, and the same chains are refused with the same error |
| `Render.Builder.FlattenJoin` | core/codegen/join.go:21-37 | a join adds its part and its alias, and refuses an empty, repeated or reserved alias |
| `Render.Builder.Qualify` | core/codegen/join.go:41-53 | columns are qualified exactly when the read joins or has an EXISTS |
| `Render.Builder.WriteSelectClause` | core/codegen/render.go:196-216 | the select list written is the query's |
| `Render.Builder.WriteFromClause` | core/codegen/join.go:55-70 | FROM and every LEFT JOIN are written, each join's predicate validated first |
| `Render.Builder.WriteWhereClause` | core/codegen/render.go:218-230 | the predicates are written as one conjunction, their EXISTS aliases counted on |
| `Render.Builder.WriteGroupByClause` | core/codegen/render.go:232-238 | GROUP BY lists the group-by columns |
| `Render.Builder.WriteHavingClause` | core/codegen/render.go:261-267 | HAVING is written with each aggregate's name replaced by its call |
| `Render.Builder.SetOutputs` | core/codegen/render.go:242-259 | the names HAVING and ORDER BY replace are those of the calls, the last of two with one name |
| `Render.Builder.WriteOrderByClause` | core/codegen/render.go:272-296 | every sort term is written, NULLs last by the dialect's clause or by a CASE before it |
| `Render.Builder.WriteLimit` | core/codegen/render.go:309-318 | the limit clause ends the statement, and what capping needs of it is kept |
| `Render.Builder.RenderSelect` | core/codegen/render.go:158-194 | a read is written as the query it resolves to, or refused exactly when a chain, a call or a predicate of it is not accepted |
| `Render.Builder.RenderInsert` | core/codegen/render.go:463-499 | an INSERT needs columns, tuples and a value for each column, and is written with all of them bound |
| `Render.Builder.RenderUpdate` | core/codegen/render.go:501-518 | an UPDATE needs an assignment and a valid predicate, and is written with both bound in that order |
| `Render.Builder.RenderDelete` | core/codegen/render.go:520-527 | a DELETE needs a valid predicate |
| `Render.Builder.RenderCall` | core/codegen/render.go:537-550 | a call binds its arguments in order |
| `Compile.Compile` | core/codegen/codegen.go:107-146 | a plan compiles exactly when the bound on lists is positive and it renders, which `CompiledExactly` says of its nodes; its kind, predicate, text, arguments and whether it is a point lookup on an identity key are those of the plan |
| `Acceptance.CompiledExactly` | core/codegen/codegen.go:107-146 | a plan renders if and only if it is a scan under nodes in order, each sound, or a write or call of its own shape: columns with as many values, a set under a sound predicate, a delete under one that is not missing |
| `Acceptance.FlattensInOrder` | core/codegen/render.go:52-156 | a chain flattens if and only if each node may follow every one before it, joins have distinct aliases and pairs, and the clauses are then those of the nodes |
| `Acceptance.ValidIsSound` | core/relalg/validate.go:40-107 | validation passes a predicate if and only if everything within it, at any depth, is sound: a condition has a field, a known operator and the value it takes, a list of operands has some and none missing, an EXISTS pairs columns and has none within it |
| `Acceptance.ExistsIsWithin` | core/relalg/validate.go:109-131 | a predicate is found to have an EXISTS if and only if one is within it |
| `Compile.KindOf` | core/codegen/codegen.go:148-173 | a call is a call, a chain over a scan is a read or, aggregating, an aggregate, and anything else a write |
| `Compile.PredicateOf` | core/codegen/codegen.go:279-299 | the predicate reported is the conjunction of every one along the chain, innermost first |
| `Compile.PredicatesAreWhere` | core/codegen/codegen.go:279-299 | what the gate takes for a read's predicate is the statement's WHERE clause |
| `Compile.IsKeyPoint` | core/codegen/codegen.go:302-351 | true exactly of a pure conjunction that equates every column of a key that names none twice, and compares none of them otherwise |
| `KeyPoints.PointExactly` | core/codegen/codegen.go:302-351 | which is so if and only if nothing but conditions and conjunctions is within the predicate, one is on each column of the key, and any on them is an equality |
| `Compile.KeyPointMatchesOne` | core/codegen/codegen.go:302-351 | a point lookup matches at most one row of any table its key identifies |
| `Compile.CapRowsPrefix` | core/codegen/codegen.go:54-64 | the capped statement returns the first n rows of the uncapped one, all when they fit, and no result exactly when that has none |
| `Gate.Check` | core/cost/cost.go:328-401 | the loop over the layers decides what the chain of layers decides |
| `Gate.MandatoryAsked` | core/cost/cost.go:328-385 | of an admitted statement every layer that is not an estimate was asked and did not refuse, bypasses included |
| `Gate.SoftStays` | core/cost/cost.go:353-385 | a statement softly refused by a layer is never admitted later in the chain |
| `Gate.TightenNeverLoosens` | core/cost/cost.go:232-240 | what passes a caller's own limits passes the gate's, and what the gate refuses outright stays refused |
| `GateAdmits.PlanAdmitted` | core/cost/layers.go:153-182 | a plan is admitted if and only if, by the gate's limits and the caller's, the rows it reads are known and within the limit, it reads no table whole where that is refused but a small one, its scan and statistics are known where asked, and its score reaches each cutoff |
| `GateAdmits.WorseScoresNoHigher` | core/cost/cost.go:34-140 | a plan no better than another in its scan, its rows, its sorts and temporary tables and its statistics scores no higher |
| `GateAdmits.AdmittedExactly` | core/cost/cost.go:328-441 | a statement is admitted if and only if no rejected template matches it, a write that must be is on a key, a call has its template, an aggregate that must has a sound condition, and a read whose estimate no point or template skips has such a plan |
| `Gate.AdmittedWriteIsPoint` | core/cost/layers.go:236-259 | with point writes required, every UPDATE or DELETE admitted is a point lookup on an identity key |
| `Gate.AdmittedWriteMatchesOne` | core/cost/cost.go:328-441 | so it matches at most one row of any table its identity keys identify |
| `Gate.CapDecides` | core/cost/layers.go:200-218 | the row cap, last in the chain, alone decides the statement that runs |
| `Gate.AdmittedReadCapped` | core/cost/layers.go:200-218 | a select admitted under a row cap is the same select with its limit at most the cap |
| `Gate.AdmittedQuery` | core/cost/layers.go:200-218 | what the gate admits of any read under a row cap is the query its clauses resolve to, its limit at most the cap |
| `Gate.ReadMeans` | core/codegen/codegen.go:107-146 | the query an unambiguous read is compiled to returns the rows the plan means |
| `Gate.AdmittedReadIsPrefix` | core/cost/cost.go:415-441 | an admitted read under a row cap returns a prefix, at most the cap long, of the rows the plan means |
| `MergeCorrect.MergeFollows` | core/workspace/merge.go:353-450 | at every path: local's value under a conflict; else, not above one, next's where local kept base's, local's where next kept base's, and either where both did the same; and three values that differ conflict or are merged in parts |
| `MergeCorrect.ConflictsReal` | core/workspace/merge.go:357-450 | every reported conflict names a path where all three sides hold what it says, differ, and have no parts that could be merged instead |
| `MergeCorrect.MergeSwapped` | core/workspace/merge.go:357-450 | merged with its sides swapped, a value has the same conflicts, swapped |
| `MergeCorrect.MergedElements` | core/workspace/merge.go:406-434 | a merged keyed list holds under each key exactly what merging that key gave, groups of equal keys included |
| `MergeOrder.MergedInOrder` | core/workspace/merge.go:406-412 | the elements of a merged list come in the local order, then those only the other side has, in its order |
| `Values.ExtraField` | core/workspace/merge.go:163-186 | one more field makes an object mean something else, if and only if it is not unset: null, false or empty where that means unset |
| `Workspace.MergeValues` | core/workspace/merge.go:357-384 | the recursive merge gives the merged value and lists each of its conflicts once |
| `Workspace.MergeFields` | core/workspace/merge.go:386-404 | so does the loop over the fields of objects |
| `Workspace.MergeKeyed` | core/workspace/merge.go:406-434 | so does the loop over the keys of keyed lists |
| `Workspace.KeyedList` | core/workspace/merge.go:312-336 | a list is keyed exactly when each element has a key; its order of keys and each key's element or group |
| `Workspace.GetValue` | core/workspace/merge.go:457-475 | walking down a path gives the value at it |
| `Workspace.SetElement` | core/workspace/merge.go:505-543 | elements with a key are replaced where the first of them was, appended when there is none, removed by a missing value |
| `Diffing.ReplacedElement` | core/workspace/merge.go:505-543 | a replaced element is what it was replaced with, and every other stays |
| `DiffCorrect.DiffApplies` | core/workspace/merge.go:573-621 | the difference from a to b, applied to a in any order, gives a value alike b: equal up to unset values and the order of keyed lists |
| `DiffCorrect.DiffApart` | core/workspace/merge.go:579-621 | the paths of a difference never lie within one another |
| `DiffExact.DiffReal` | core/workspace/merge.go:570-621 | every change listed holds the second value at its path, where the two differ and have no parts that could be told apart instead |
| `Replay.Replay` | core/workspace/conflicts.go:86-112 | a replay gives every item of the result and every conflict that merging the three snapshots item by item gives |
| `Replay.ReplayFollows` | core/workspace/conflicts.go:86-112 | at every path of every item the replayed snapshot follows its sides as a merged value does |
| `Replay.Changes` | core/workspace/workspace.go:97-116 | exactly the references whose items differ or are on one side only |
| `Replay.Apply` | core/workspace/workspace.go:72-94 | every reference reads as set: in place, appended when absent, removed when missing or null; the others as before |
| `Lenses.SetThenGet` | core/workspace/merge.go:457-543 | a value set by path is the value then got, where the way is there and through no group, if and only if the last step is not into a list with elements without a key, or nothing was set |
| `Lenses.SetKeepsApart` | core/workspace/merge.go:480-543 | every path apart holds what it held, where what the value is set in has nothing by a step of the other kind |
| `Lenses.SetLosesApart` | core/workspace/merge.go:480-543 | and otherwise some path apart does not |
| `Conflicts.FindView` | core/workspace/conflicts.go:21-47 | a conflict is open exactly when what holds its value is there and the value differs from the other side's, its path cut at the first group |
| `Conflicts.Resolve` | core/workspace/conflicts.go:165-195 | an id that is not open, or a pinned value without a place, changes nothing; else theirs sets the value of one item, mine nothing, and the conflicts left are told |
| `Conflicts.ChosenIsOpen` | core/workspace/conflicts.go:166-174 | the conflict chosen is one of those given, of that id, as it stands |
| `Conflicts.LeftAreOpen` | core/workspace/conflicts.go:186-194 | those are exactly the ones still open that the choice does not decide |
| `Conflicts.TheirsTaken` | core/workspace/conflicts.go:176-184 | after taking theirs the path means the other side's value, every path apart and every other item is as it was |
| `Conflicts.FoundTidy` | core/workspace/merge.go:357-450 | the merge reports conflicts only at paths for which that holds: never through the property that keys an element |
| `Conflicts.Carry` | core/workspace/conflicts.go:119-146 | the pending conflicts still open that no new one replaces, as they stand, then the new ones on or under none of them |
| `Conflicts.CarryKeeps` | core/workspace/conflicts.go:119-146 | no conflict is lost, and no new one is kept on or under a pending one |
| `Expiries.Up` | core/cache/cache.go:87-106 | an entry moved up leaves the heap in order, with the same entries and each one's position known |
| `Expiries.Down` | core/cache/cache.go:87-106 | so does one moved down |
| `Expiries.Remove` | core/cache/cache.go:267-282 | removing the entry at a position leaves exactly the others, in heap order |
| `Expiries.FirstExpires` | core/cache/cache.go:87-106 | the first entry of the heap expires no later than any |
| `TtlCache.Evict` | core/cache/cache.go:158-162 | what is evicted expires no later than what is kept, enough is evicted to fit, and no more than that takes |
| `TtlCache.Cache.constructor` | core/cache/cache.go:136-141 | a new cache is empty and bounded |
| `TtlCache.Cache.UpdateLimits` | core/cache/cache.go:146-154 | new limits evict what no longer fits, closest to expiry first |
| `TtlCache.Cache.GetSized` | core/cache/cache.go:171-183 | a hit is the stored, unexpired entry; an expired one is dropped; nothing else changes |
| `TtlCache.Cache.SetSized` | core/cache/cache.go:200-228 | an entry is stored unless its database was invalidated since the stamp or it is too large; expired entries go, then those closest to expiry, and both caps hold |
| `TtlCache.Cache.Invalidate` | core/cache/cache.go:231-253 | exactly the entries a write may change go, through the two-level index, and the database's stamp moves on |
| `TtlCache.Cache.DropGeneration` | core/cache/cache.go:257-265 | exactly the entries of one configuration generation go |
| `CacheRaces.RunKeeps` | core/cache/cache.go:186-253 | every interleaving of readers and writers keeps what makes entries fresh |
| `CacheRaces.NoStaleEntry` | core/tool/tools_read_impl.go:45-76 | once a write's invalidations returned, nothing cached that a target of it touches was queried before it |
| `CacheTrace.Get` | core/cache/cache.go:171-183 | a lookup in a cache that mirrors a world of the races takes drops of it, and hits only what it has cached |
| `CacheTrace.Set` | core/cache/cache.go:200-228 | storing takes the reader's store and drops, exactly when its stamp is current and the value fits, and no step otherwise |
| `CacheTrace.Invalidate` | core/cache/cache.go:231-253 | invalidating takes the writer's next invalidation |
| `CacheTrace.LosesBySteps` | core/cache/cache.go:146-162 | a cache that loses entries, whichever, takes drops |
| `Invalidation.Walk` | core/tool/invalidation.go:82-125 | the worklist ends with exactly the closure of the cascades from its roots, none with side effects or a cascade to no entity, or names one in it that has |
| `Invalidation.Compute` | core/tool/invalidation.go:82-125 | the targets of a write touch exactly what is cached of the relations it reaches and what is derived in their database, or, where one reached has side effects or cascades to no entity, are that one's whole database |
| `Invalidation.CompactTargets` | core/tool/invalidation.go:137-156 | compacting keeps what the targets touch, repeats none, and keeps no relation of a whole database |
| `Invalidation.NoStaleRead` | core/tool/invalidation.go:176-218 | in every interleaving, after a write's invalidations returned nothing is served of a relation in its cascade closure, or derived in its database, that was queried before it |
| `Invalidation.NoStaleDatabase` | core/tool/invalidation.go:103-125 | and nothing at all of its database where a relation it reaches has side effects or cascades to no entity |
| `Cascades.CascadeEffects` | core/tool/cascade.go:23-42 | the effects of the keys, in order, of which `EffectsCover` says what the database does |
| `Cascades.CheckCascades` | core/tool/cascade.go:51-87 | the check passes if and only if every effect reached, not past an entity that allows cascades, is permitted; the walk ends on cyclic keys |
| `CascadeExactness.EffectsCover` | core/tool/cascade.go:23-42 | whatever a foreign key makes the database do next to a row, a delete or an assignment of columns, is an effect listed of the write |
| `CascadePaths.TriggersCarried` | core/entity/entity.go:168-198 | ON DELETE and ON UPDATE, each by its own rule, delete the referring rows or change at most the columns a path of keys carries on |
| `CascadeExactness.PassedIsCovered` | core/tool/cascade.go:44-87 | once the check passes, whatever the rows and however far the keys cascade, every row deleted and column assigned, not past an entity that allows cascades, is of an entity the caller may do that to without a row scope, and no other column changes |
| `CascadeExactness.RefusedExactly` | core/tool/cascade.go:44-87 | what the caller may not do can happen on some rows if and only if a path of keys whose referenced columns change ends in it |
| `CascadeExactness.CheckExact` | core/tool/cascade.go:44-87 | the check refuses whatever can happen and is not covered, and only that where no update reached assigns some of the columns of a key it cascades through and not the others |
| `CascadeExactness.RefusalsExact` | core/tool/cascade.go:23-87 | whatever the policy a refusal is for a write that can happen, if and only if every effect checked ends such a path, or one ends where no entity is |
| `CascadeExactness.PartRefusedForNothing` | core/tool/cascade.go:29-31 | an update of one column of a key of two is refused for what only the other would cascade |
| `Paging.CursorMeans` | core/tool/order.go:134-202 | the cursor predicate is true exactly of the rows strictly after the cursor in the mixed ascending, descending, NULLs-last order |
| `Paging.PagesAreAll` | core/tool/order.go:134-223 | pages that resume after the last row's keys give every row once, in order, and end |
| `ReadOrders.PlanReadOrder` | core/tool/order.go:40-72 | refuses exactly more than eight terms, or an own field whose name is taken; else the terms are those asked, unchanged and in the order asked, the first of each name, then, unless distinct, the key's columns not named, ascending, not nullable, in key order, which are the key fields; it pages exactly with a key and no related term |
| `ReadOrders.PlansNames` | core/tool/order.go:17-26 | such an order names no field twice, every field asked for and, when it pages, the whole key |
| `ReadOrders.OrderCursor` | core/tool/order.go:134-167 | a cursor is accepted exactly when it names the order's fields, and becomes the predicate of the rows after it |
| `ReadOrders.AfterMeansAfter` | core/tool/order.go:134-192 | that predicate is true exactly of the rows strictly after the cursor |
| `ReadOrders.NextCursor` | core/tool/order.go:206-223 | a full page of an order that pages gives the last row's ordered values, each by its name or the entity's alias of it; any other, or a row without one of them, no cursor |
| `ReadOrders.WalkReadsAll` | core/tool/order.go:134-223 | following the returned cursors over unchanging rows reads every row exactly once, in order, and ends, where the order names a key of the rows, as every planned order that pages does |
| `ReadOrders.WalkInOrderAsked` | core/tool/order.go:40-223 | of a planned order that pages, following the cursors returns each row once, none later than one that comes after it in the first field asked for that they differ in, in its direction and NULL last, and ends |
| `ReadOrders.PageIsRead` | core/tool/tools_read_impl.go:350-374 | the plan of a page, its filter and the cursor's predicate in one selection, sorted, projected and limited, returns exactly that page |
| `Lanes.RunKeeps` | core/bus/lane.go:133-231 | in every interleaving of single counter steps the counters count the tickets at their stages, and each live ticket was covered when it was accepted |
| `Lanes.TicketsFit` | core/bus/lane.go:133-231 | so accepted, unreleased tickets never exceed slots plus queue, nor running ones the slots |
| `Lanes.AdmittedOnce` | core/bus/lane.go:201-231 | a ticket is admitted at most once |
| `LaneAdmits.AcceptedExactly` | core/bus/lane.go:183-197 | nobody else moving, a ticket is accepted if and only if fewer are live than the slots and the queue hold |
| `Semaphores.Semaphore.constructor` | core/bus/semaphore.go:18-20 | a new semaphore is free |
| `Semaphores.Semaphore.Resize` | core/bus/semaphore.go:24-29 | a resize grants what became free, in order |
| `Semaphores.Semaphore.TryAcquire` | core/bus/semaphore.go:32-40 | succeeds exactly when a slot is free and nobody waits |
| `Semaphores.Semaphore.Acquire` | core/bus/semaphore.go:43-56 | takes a free slot or a place last among the waiters |
| `Semaphores.Semaphore.Cancel` | core/bus/semaphore.go:56-70 | a cancelled call leaves the waiters, or hands back a slot granted meanwhile |
| `Semaphores.Semaphore.Release` | core/bus/semaphore.go:73-78 | a slot given back goes to the first waiter |
| `Semaphores.Semaphore.GrantLocked` | core/bus/semaphore.go:87-93 | the loop grants free slots to the first waiters |
| `Semaphores.StepKeeps` | core/bus/semaphore.go:24-93 | every step, resizes and cancellations included, leaves nobody waiting for a free slot, overtakes no waiter, and never grants past the size |
| `Semaphores.RunKeeps` | core/bus/semaphore.go:24-93 | in every run used is the number of slots held, nobody waits while one is free, and nobody holds one who came after a waiter |
| `Semaphores.RunFits` | core/bus/semaphore.go:32-93 | without a resize no more slots are held than there are |
| `BusIo.RunSound` | core/bus/bus.go:102-123 | every IO slot a lane other than Serve holds is held together with an auxiliary one |
| `BusIo.HalfForOthers` | core/bus/bus.go:66-123 | in every run the lanes other than Serve hold at most half the IO slots, and at least one can be theirs |
| `JoinKeys.GcdOf` | core/tool/tools_read_impl.go:619-627 | the loop in 64 bits gives the greatest common divisor, 1 for two zeros |
| `JoinKeys.DecimalKey` | core/tool/tools_read_impl.go:587-617 | accepts exactly plain decimals of 1 to 18 digits, without overflow, and gives the number's text in lowest terms |
| `JoinKeys.LowestUnique` | core/tool/tools_read_impl.go:583-617 | a number has one fraction in lowest terms |
| `JoinKeys.DecimalKeysAgree` | core/tool/tools_read_impl.go:544-617 | two plain decimals, or one and an integer of any width, have the same key if and only if they are the same rational number |
| `JoinTuples.JoinKeyOf` | core/tool/tools_read_impl.go:544-568 | a tuple has a key exactly when no value of it is NULL: those of its values between commas |
| `JoinTuples.TupleKeysAgree` | core/tool/tools_read_impl.go:540-568 | tuples have the same key if and only if value by value they are the same number or the same text |
| `JoinTuples.UniqueJoinTuples` | core/tool/tools_read_impl.go:645-661 | the tuples of rows that hold no NULL, one for each key |
| `JoinTuples.TuplesListed` | core/tool/tools_read_impl.go:645-661 | so no two hold the same values, and those of every row are listed |
| `Rbac.ExactWhenNamed` | core/rbac/rbac.go:624-631 | the first denied field is reported exactly if and only if no field is empty |
| `Rbac.PassesCovers` | core/rbac/rbac.go:455-468 | a grant that covers every field passes, and one that passes named fields covers them |
| `Rbac.MissingMatchesNothing` | core/rbac/rbac.go:646-683 | a condition on an attribute the subject lacks is never true, unless it is a test for NULL |
| `Rbac.ResolveMeans` | core/rbac/rbac.go:646-694 | a policy filled in for a caller has the three-valued meaning it has when each placeholder stands for the caller's attribute, in a list for each of its items, and for NULL where there is none |
| `Rbac.RowFilterHolds` | core/rbac/rbac.go:368-388 | the row filter holds of a row for a caller if and only if the tenant policy and the rows of some serving grant do |
| `Rbac.RowsCovered` | core/rbac/rbac.go:285-388 | every row an allowed request sees satisfies, for its caller, the tenant policy and the rows of one single grant that covers every field projected and used |
| `Entitlement.AllowedExactly` | core/rbac/rbac.go:285-356 | a request is allowed if and only if one grant of the principal's own or of its roles' allows the action, covers every field read and written and, for a read, all that is shown, which is something |
| `Entitlement.FieldsExactly` | core/rbac/rbac.go:337-364 | the fields returned are those asked for, or all, that exist and some covering grant reads, in the order asked or listed; a write returns none |
| `Entitlement.SeesExactly` | core/rbac/rbac.go:285-388 | the rows seen are exactly those the tenant policy and the rows of one such grant are true of, for this caller |
| `Rbac.ScopeAllowed` | core/rbac/rbac.go:472-523 | every non-empty scope a denied read is offered is allowed, and projected as it is, when exactly it is read |
| `Authorizer.CoveringGrants` | core/rbac/rbac.go:455-468 | the loop keeps the grants that cover the fields, in order |
| `Authorizer.FindCandidates` | core/rbac/rbac.go:409-431 | the principal's own grants, then each role's, that allow the action |
| `Authorizer.UnionOf` | core/rbac/rbac.go:502-516 | the requested fields some grant may read, in attribute order |
| `Authorizer.EffectiveRowFilter` | core/rbac/rbac.go:368-388 | the filter and the grants it is made of |
| `PreparedRuns.ClosedOnce` | core/store/prepared.go:61-259 | in every run a statement is closed once, exactly when it is retired and no caller or waiter claims it; one not retired is kept, and at most max are |
| `PreparedRuns.NextKeeps` | core/store/prepared.go:61-259 | every step of every caller keeps the counts, the calls under way and the closed statements right |
| `PreparedLaws.ServedItsQuery` | core/store/prepared.go:61-135 | in every run a caller holds, or waits for, a statement whose preparation was begun for the query it asked, and one kept under a query was too |
| `PreparedLaws.NoneKeptPastClose` | core/store/prepared.go:112-135 | in every run no statement whose preparation began before a Close is kept after it |
| `PreparedCache.PreparedDB.constructor` | core/store/prepared.go:51-59 | a new cache keeps nothing |
| `PreparedCache.PreparedDB.Enter` | core/store/prepared.go:61-88 | a caller takes the kept statement, joins the preparation under way, or starts one |
| `PreparedCache.PreparedDB.FinishPrepareError` | core/store/prepared.go:100-110 | a failed preparation is over for all who wait |
| `PreparedCache.PreparedDB.FinishPrepareSuccess` | core/store/prepared.go:112-135 | a statement is kept, the oldest one retired when full, or retired at once when the cache was emptied meanwhile |
| `PreparedCache.PreparedDB.Failed` | core/store/prepared.go:146-158 | a stale statement is retired and no longer kept |
| `PreparedCache.PreparedDB.CancelWait` | core/store/prepared.go:160-173 | a waiter that gives up gives back what it was handed |
| `PreparedCache.PreparedDB.Retire` | core/store/prepared.go:175-180 | a statement is retired once, and closed then if unreferenced |
| `PreparedCache.PreparedDB.ReleaseEntry` | core/store/prepared.go:182-193 | the last reference of a retired statement closes it |
| `PreparedCache.PreparedDB.Close` | core/store/prepared.go:243-259 | every kept statement is retired, and preparations under way will not be kept |
| `BudgetRuns.RunRight` | core/budget/budget.go:189-441 | in every run session and tenant calls and reservations are the sums over open leases, no open lease loses its session, the idle list is exactly the idle sessions by last use, and the table is never overfull |
| `BudgetRuns.VictimHeldMore` | core/budget/budget.go:245-290 | a session dropped to make room was idle, and the caller's own or of a principal holding strictly more |
| `BudgetRuns.RunWithin` | core/budget/budget.go:327-342 | with fixed limits and usage within reservations, cost plus reservations stay within the session's limit in every run |
| `BudgetRuns.RunConcurrent` | core/budget/budget.go:154-243 | in every run with the limits configured a session's open calls are at most its role's maximum, and a tenant's together at most the tenant's |
| `BudgetLaws.CostIsSpent` | core/budget/budget.go:407-441 | in every run a session's cost is the sum of what the calls completed in it used, since it began or was closed |
| `BudgetLaws.GrantedExactly` | core/budget/budget.go:189-243 | where its session has room a call is granted if and only if, by its role's limits and its tenant's, the rows it reads are within theirs, what was used and is reserved leaves room for its cost, and fewer calls are open than may be |
| `BudgetManager.MemoryManager.constructor` | core/budget/budget.go:113-124 | bounds that are not positive take their defaults |
| `BudgetManager.MemoryManager.AcquireWithReservation` | core/budget/budget.go:189-221 | a call is admitted and counted, or refused leaving the counts as they were, as the limits say |
| `BudgetManager.MemoryManager.AcquireStateLocked` | core/budget/budget.go:245-267 | a scope has a session, made room for in a full table when some principal may yield |
| `BudgetManager.MemoryManager.VictimLocked` | core/budget/budget.go:275-290 | finds a principal that may yield an idle session exactly when there is one |
| `BudgetManager.MemoryManager.IdleLocked` | core/budget/budget.go:299-302 | a session that ends its last call is last in both idle lists |
| `BudgetManager.MemoryManager.BusyLocked` | core/budget/budget.go:305-311 | one that starts a call leaves both |
| `BudgetManager.MemoryManager.DropLocked` | core/budget/budget.go:314-325 | a session is forgotten with its place in the lists and its principal's share |
| `BudgetManager.MemoryManager.PruneLocked` | core/budget/budget.go:363-371 | exactly the sessions idle too long go, and the manager stays sound |
| `BudgetManager.MemoryManager.CloseSession` | core/budget/budget.go:375-391 | the idle scopes of a session go, the busy ones once their last call ends |
| `BudgetManager.MemoryManager.Complete` | core/budget/budget.go:407-441 | a lease gives back its reservation, counts what was used, and idles or drops the session |
| `TransactionRuns.StagesMoveOn` | core/tool/transaction.go:230-322 | every step moves a transaction at most from open to ending or from ending to ended |
| `TransactionRuns.Run` | core/tool/transaction.go:168-525 | every run keeps the manager sound: counts, stages, tombstones and what was handed out |
| `TransactionRuns.FinishedOnce` | core/tool/transaction.go:390-525 | in every run the database is told the end of a transaction once, and nothing while it is open; a tombstone says committed exactly when its commit was accepted, and what was written is handed out exactly when it committed or may have |
| `TransactionHistory.SentAsAsked` | core/tool/transaction.go:293-525 | in every run what the database is told is what the one end that took the transaction asked for: a commit, with a rollback after one that fails, for a caller's commit settled in time, and a rollback alone for any other end or one never opened; the tombstone says so |
| `TransactionHistory.CommitsAsAsked` | core/tool/transaction.go:421-450 | a commit is sent exactly when the end that took the transaction was its caller's commit, settled before the request was over |
| `TransactionRuns.CountsHold` | core/tool/transaction.go:168-271 | in every run the counts per scope and per connection are those of the open handles, and while no limit is changed within the limits it began with |
| `TransactionRuns.OpensWithin` | core/tool/transaction.go:179-260 | whatever limits are set meanwhile, no step opens a transaction past the limits in force when it is taken |
| `TransactionRuns.WithinHighest` | core/tool/transaction.go:110-130 | so a scope or a connection never has more open than the highest limit that was in force on it |
| `TransactionRuns.SettleOnce` | core/tool/transaction.go:421-450 | an end under way finds its transaction not yet finished, and finishes it |
| `TransactionTable.TransactionManager.constructor` | core/tool/transaction.go:93-99 | a new manager has no handles |
| `TransactionTable.TransactionManager.AddHandle` | core/tool/transaction.go:238-260 | a transaction is registered and counted, or, closed or at capacity, rolled back |
| `TransactionTable.TransactionManager.RemoveLocked` | core/tool/transaction.go:263-271 | a handle and its two counts go together |
| `TransactionTable.TransactionManager.EndingLocked` | core/tool/transaction.go:293-310 | the first end takes the handle, and its outcome is still to come |
| `TransactionTable.TransactionManager.Finish` | core/tool/transaction.go:421-450 | sends the database what the job asks, of which `SentAsAsked` says what it is, records how it ended, and returns what was written when it committed or may have |
| `TransactionTable.TransactionManager.RollbackSession` | core/tool/transaction.go:493-508 | exactly the open handles of the session are taken, to be rolled back |
| `TransactionTable.TransactionManager.Close` | core/tool/transaction.go:510-525 | every open handle is taken, to be rolled back, and no more are registered |
| `TransactionTable.TransactionManager.BuryLocked` | core/tool/transaction_ended.go:41-57 | an outcome is kept, and the oldest ones beyond the bound or the time go |
| `TransactionTable.TransactionManager.EndedError` | core/tool/transaction_ended.go:61-69 | an outcome is told exactly to the session and scope the transaction was bound to, while it is kept and within its retention |
| `TransactionTable.TransactionManager.UpdateLimits` | core/tool/transaction.go:126-130 | only the limit of later begins changes |
| `TransactionTable.TransactionManager.SetConnectionLimit` | core/tool/transaction.go:110-114 | only the limit of later begins on a connection changes |

## Left out

- SelectKeepsMeaning: asks that every name be unambiguous. That is exact of one sort order (`OrderExact`, `GroupOrderExact`), of a join (`JoinExact`) and of the scopes of any number (`ScopeExact`), of a condition on a dotted alias (`DottedExact`), of an EXISTS (`ScanExistsExact`, `JoinExistsExact`, `HavingExact`) and of a condition on groups (`ConditionExact`), each alone. It is sufficient, and not shown necessary, of a dotted alias named elsewhere than in a condition, of a HAVING predicate of several conditions, and of chains that combine these, where whether a taken name shows depends on the rows that reach it.
- SelectMeans: the same, but for the names of order terms.
- ClausesMean: the same.
- ReadMeans: asks what SelectKeepsMeaning does, as it says what the plan means.
- CompiledReadMeans: the same.
- AdmittedTextMeans: the same; `AdmittedTextIsPrefix` compares two texts and asks for none of it.
- AdmittedReadIsPrefix: the same; `AdmittedQuery` asks for none of it.
- JoinExistsExact: one pair, of a column that starts with no dotted alias, which `DottedExact` is about.
- JoinExistsDiffers: the same.
- WriteReadsBack: a relation whose columns no EXISTS compares by the same name; `WriteExact` shows that it must be so.
- FlattenKeepsMeaning: projections name a column and aggregates compute or group something, as the tools that build the plans ensure (core/tool/tools_read_impl.go:365, core/tool/tools_aggregate_impl.go:143).
- NoStaleRead: given cascades stay in one physical database and reach relations only; a target then covers every one of them (`Compute`).
- WalkInOrderAsked: what WalkReadsAll asks.
- WalkReadsAll: the rows do not change between pages, no key column of them is NULL, and a column the order takes for non-nullable holds no NULL; a row is named by its fields, so that no alias of one is another's name.
- PageIsRead: a read that joins nothing and skips nothing.
- WrittenReadsBack: tokens, not characters: quoting is taken as injective, and a dialect's placeholder text as its number.
- TupleKeysAgree: integers, plain decimals and text; a float, or a decimal of more than 18 digits, goes through big.Rat, and Go's quoting of a character is any prefix-free escape.
- JoinKeyOf: the same.
- DecimalKeysAgree: the same: the big.Rat path of numberKey is not modelled.
- TicketsFit: a lane entered by tickets only, on an open bus, with fixed limits; TryEnter and the unbounded wait of RunWaiting are not modelled.
- HalfForOthers: the number of IO slots is fixed; waiting for a slot is one step that succeeds or not.
- FindCandidates: roles are compared as they are; NormalizeRole and the memo maps are not modelled, and a role's grants on an entity are part of the policy.
- RowsCovered: every field a request names is non-empty, as `ExactWhenNamed` shows it must be.
- AllowedExactly: the same.
- FieldsExactly: the same.
- SeesExactly: the same.
- PassedIsCovered: the registry knows the foreign keys of the relations it exposes and the entity that exposes each, as assembly sets them; what the database then refuses, a duplicate key or a NULL, is not modelled.
- RefusedExactly: the same; the rows on which a write can happen need not be unique by the columns keys refer to, and are written in some order.
- RefusalsExact: what RefusedExactly asks.
- CheckExact: what RefusedExactly asks, and one way only where a key is assigned in part; `RefusalsExact` is the exact condition.
- GrantedExactly: a call whose session has, or can be given, a place in the table.
- AcceptedExactly: nobody is between two steps that count it, and nobody moves.
- Check: explaining a statement and matching it against templates are functions; hints, scores in messages, feedback and sampling are not modelled.
- Replay: conflicts as a set for each item; their identifiers and sources are given to them in `Conflicts`.
- CloseSession: time is a number of seconds given to each step; MaxExecution and the limits a lease returns are not modelled.
- Finish: timers are steps that may come at any time; the idle clock, random tokens and the parallel rollback of Close are not modelled.
- Enter: preparing and running are steps that succeed or fail; errors of closing a statement are not kept.
- AddHandle: beginning the transaction in the database is not modelled, only its registration.
- TheirsTaken: a conflict at a path the merge reports one at, whose pinned value is one that path may hold, as `FoundTidy` shows of those a replay finds.
- Resolve: an item is looked up in the snapshot; the index of it that many conflicts share is `Replay.Index`.
- BuildWriteTargets' table over all entities (core/tool/invalidation.go:41-73): a loop over `Compute`.
- The pointer-keyed memo of the merge comparer and the memo maps of the authorizer: the functions they remember are modelled.
- orderTerm's checks of a field, trimOrderFields and masking (core/tool/order.go:77-127, 227-240): easy, and without an effect on the order.
- Writing children back to parents (core/tool/tools_read_impl.go:663-789) and joinPredicate: they only look up the keys proved here.
- Breaker, token bucket, adaptive limiter, result meter, singleflight, revision store, feedback window, configuration, command line, drivers, dialects and the network.
