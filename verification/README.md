# squishy, verified

squishy plans and runs migrations from MySQL, MariaDB, Oracle and DB2 to PostgreSQL. This project
models its hardest parts in Dafny and proves what they promise. Run `dafny verify dfyconfig.toml`.

| part | files |
|---|---|
| MariaDB system versioning on plain tables with two triggers | `Temporal`, `AsOf`, `HistoryKey`, `VersionedTable` |
| The names that emulation derives | `Identifiers`, `IdentHash`, `SysverNames` |
| Parentheses around operator operands, and what PostgreSQL reads (section 4.1.6 "Operator Precedence" of its manual) | `PgExpr`, `PgReader`, `PgReaderProofs`, `OperandPrecedence` |
| Oracle's `(+)` as LEFT JOIN | `OuterJoin`, `OuterJoinSemantics`, `OuterJoinProofs`, `OuterJoinTheorem`, `OuterJoinParts`, `OuterJoinSides`, `OuterJoinRows`, `OuterJoinText` |
| The plan of steps, its levels, and starting a run | `StepGraph`, `Planner`, `PlannerProofs`, `Levels`, `StartRun`, `SkipData`, `SkippedPlan` |
| The job queue, worker, dispatcher, judge, supervisor and operator | `RunDb`, `RunEvents`, `RunQueue`, `RunVerdict`, `RunOrder`, `RunHazards`, `RunBreaks`, `RunOverlaps`, `RunExamples`, `RunCancel`, `RunBatches`, `RunRescue`, `RunJams`, `RunStore`, `RunLoops`, `RunReopen`, `RunParts`, `RunPlan` |
| Batches: partition, bounds, delete-then-copy | `Partition`, `KeyBounds`, `FloatRounding`, `BatchCopy`, `CopyOverlap` |
| CONCAT of generated columns as a `||` chain | `Concat`, `ConcatMeaning` |

Loops and updates in place are methods over arrays, classes and their fields, each proved equal to a
function; the results are about those functions. A run is a sequence of events of any length
(`RunEvents`), one for each statement that workers, dispatcher, supervisor, judge and operator issue.

## What the code does not keep

Each of these is proved, with the exact condition under which the code does meet the promise where
there is one.

- A prefix operator other than NOT, + and - is placed at the unary level; PostgreSQL reads it lower (`OperandPrecedence.RoundTrip`).
- The parenthesising pass is said to be a no-op on a tree whose grouping already matches; it is exactly where `OperandPrecedence.NoOpExactly` says, and not on `OperandPrecedence.InTestWrapped`.
- The outer-join rewrite says that unsupported shapes stay as they are; hints stripped before a late refusal are gone (`OuterJoinParts.RefusalKeepsTreeExactly`), and parentheses around an OR among several residual predicates are lost in print (`OuterJoinText.WhereReadsBackExactly`, `OuterJoinText.GroupedRegroups`).
- The outer-join rewrite starts from the first table without a hint, which need not be the one that is joined; the ON clause can then name a table PostgreSQL does not know there, exactly under the condition of `OuterJoinTheorem.ScopedExactly`.
- A WITHOUT SYSTEM VERSIONING column in the primary key can break the key of the history table (`HistoryKey.KeySafeExactly`).
- A plan without tables lets create_fk start before create_ddl (`PlannerProofs.FkWaitsForDdlExactly`), and so does a run started without data (`SkippedPlan.SkippedFkWaitsForDdlExactly`), where the comment says the graph stays connected.
- Expanding a copy_table step again is said to keep the existing batches and create the missing ones; the job of the first kept batch breaks its foreign key and the whole expansion fails (`RunStore.Store.ExpandCopy`), as it does after a crash (`RunJams.SecondExpansionFails`).
- Completions do not look at the job they complete: replays under live claims, and attempts that outlive their lock, break the order of steps (`RunHazards`, `RunOverlaps`), and so do revived jobs of a succeeded step and completions beside a live claim (`RunBreaks`).
- A crash between the two writes of a success strands the step until it is replayed (`RunHazards.CrashStrands`); retry and play help exactly where `RunRescue.SucceedsExactly` says.
- Cancelling a run changes no step, and the dispatcher does not look at the run: it goes on to insert jobs exactly in the states of `RunCancel.CancelStopsExactly`.
- An attempt that outlives its lock can delete the rows of a batch that another attempt has copied and marked as done; they are gone if it dies before its own copy (`CopyOverlap.OverlapExactly`).
- The loop that partitions keys does not end on a table whose largest key is the largest of 64 bits (`Partition.NeverEnds`), and the planner does not return when views refer to each other in a circle (`PlannerProofs.BuildLeveled`).
- Key bounds beyond 53 bits are rounded on their way to the batch, and rows are lost or can arrive twice (`KeyBounds.RoundingExactly`, `BatchCopy.PlannedCopyExactly`).

## Model

| member | source | states |
|---|---|---|
| `AsOf.AsOfTheorem` | internal/translate/mariadb_temporal.go:565-657 | After any run of inserts, updates and deletes with non-decreasing timestamps, the AS OF view of current and history at any time before the sentinel is what a plain log of the changes held at that time, on the versioned columns |
| `AsOf.PastUnchanged` | internal/translate/mariadb_temporal.go:565-613 | A change made now does not alter what the view shows at any earlier time |
| `AsOf.RunHealthy` | internal/translate/mariadb_temporal.go:570-613 | Along every run, current rows stay open and no later than the clock, archived versions non-empty and closed by the clock |
| `AsOf.ContentsRun` | internal/translate/mariadb_temporal.go:565-613 | The current table is the table of the log, several changes at one timestamp included |
| `AsOf.UnversionedUpdateInvisible` | internal/translate/mariadb_temporal.go:615-657 | An UPDATE whose columns are all listed WITHOUT SYSTEM VERSIONING, case aside, archives nothing and changes the view at no time |
| `Temporal.TriggersMean` | internal/translate/mariadb_temporal.go:570-667 | Interpreting the generated trigger bodies gives exactly: stamp the new row, archive the old one, closed at the change time, unless its life has zero length |
| `Temporal.FiresExactly` | internal/translate/mariadb_temporal.go:615-657 | Both UPDATE triggers fire exactly when nothing is listed WITHOUT SYSTEM VERSIONING or some assigned column differs from every listed name, case aside |
| `Temporal.VersionedExactly` | internal/translate/mariadb_temporal.go:615-630 | A column is versioned exactly when it is the user's own and no listed name is its name, case aside |
| `VersionedTable.FireTrigger` | internal/translate/mariadb_temporal.go:570-613 | Running a trigger body statement by statement has the effect of its definition |
| `VersionedTable.Table.constructor` | internal/translate/mariadb_temporal.go:565-667 | The copied rows and versions, with the two triggers installed |
| `VersionedTable.Table.Change` | internal/translate/mariadb_temporal.go:645-657 | One changed row: the BEFORE trigger, the change, the AFTER trigger, in place |
| `VersionedTable.Table.Statement` | internal/translate/mariadb_temporal.go:570-613 | A statement of many rows is the run of its changes at the statement's one timestamp |
| `HistoryKey.HistoryKeyNeverViolated` | internal/translate/mariadb_temporal.go:415-426 | With a versioned key, no run violates the history key (pk, row_end), and the versions of one key, archived and current, have disjoint intervals |
| `HistoryKey.RunNoOverlap` | internal/translate/mariadb_temporal.go:582-613 | The versions of one row, and of one key when it is versioned, stay pairwise disjoint along every run |
| `HistoryKey.ShownOnce` | internal/translate/mariadb_temporal.go:582-613 | At every time at most one version of a row is shown |
| `HistoryKey.KeyExactly` | internal/translate/mariadb_temporal.go:415-426 | Two rows have one key exactly when they agree on every key column |
| `HistoryKey.KeySafeExactly` | internal/translate/mariadb_temporal.go:415-426 | From an empty table, no change is ever refused for the key of the history table exactly when no key column is listed WITHOUT SYSTEM VERSIONING, case aside |
| `HistoryKey.CollisionCollides` | internal/translate/mariadb_temporal.go:415-426 | With an unversioned key column, the last of five given row changes, a delete, archives a version whose history key is already there: PostgreSQL refuses it, after four changes that kept the key |
| `Identifiers.ClipInPlace` | internal/translate/mariadb_temporal.go:677-685 | The loop that moves the cut back returns the prefix of ClipUTF8 |
| `Identifiers.ClipIsLongest` | internal/translate/mariadb_temporal.go:677-685 | The result is the longest prefix of at most n bytes that ends on a character boundary |
| `Identifiers.FitsExactly` | internal/translate/mariadb_temporal.go:694-706 | A derived name is at most 63 bytes exactly when the parts fit as they are or the suffix has at most 54 bytes |
| `Identifiers.SuffixesApart` | internal/translate/mariadb_temporal.go:687-706 | Two suffixes of one table, neither the end of the other, never give one name, however long the table name |
| `IdentHash.NamesApart` | internal/translate/mariadb_temporal.go:687-706 | Two table names of one length that differ in one byte, even in the part that is clipped, get two names with the same suffix: one round of the hash loses nothing, so their tags differ |
| `IdentHash.Clipped` | internal/translate/mariadb_temporal.go:687-706 | A clipped name is the longest prefix of the base, cut between characters, that leaves room for the tag of the whole base and the suffix |
| `IdentHash.PublishedHashes` | internal/translate/mariadb_temporal.go:694-706 | The hash is 32-bit FNV-1a: its published values of the empty text and of a |
| `Identifiers.CandidatesApart` | internal/translate/mariadb_temporal.go:546-553 | Different numbers give different candidate names, case aside, even when the base is clipped |
| `Identifiers.Pigeonhole` | internal/translate/mariadb_temporal.go:546-553 | The search ends after at most one try more than there are taken names |
| `Identifiers.FreeIdent` | internal/translate/mariadb_temporal.go:546-553 | The loop terminates for every finite taken set and returns the first candidate that is free |
| `SysverNames.Taken.ClaimRelation` | internal/translate/mariadb_temporal.go:546-553 | The claimed name was free, is the first free candidate, fits 63 bytes, and is the one name added |
| `SysverNames.Taken.ClaimFunction` | internal/translate/mariadb_temporal.go:546-553 | The same for function names |
| `SysverNames.Taken.ClaimTrigger` | internal/translate/mariadb_temporal.go:489-496 | The same for the trigger names of one table |
| `SysverNames.Plan.EmitSystemVersioning` | internal/translate/mariadb_temporal.go:379-429 | One claim for each emulated table, in plan order; the claims are new and pairwise distinct per namespace; their history tables join the plan |
| `SysverNames.EmulatedExactly` | internal/translate/mariadb_temporal.go:379-429 | A versioned table is emulated between those before it and those after it, any other is left out |
| `SysverNames.NoRelationClash` | internal/translate/mariadb_temporal.go:379-429 | When every table of the plan was counted as taken, no history table is stored under another table's name |
| `OperandPrecedence.RoundTrip` | internal/translate/mysql_visitors.go:840-889 | PostgreSQL reads the printed tree back as the tree that was printed exactly when no bare left operand of an arithmetic operator ends with a prefix operator other than NOT, + and -; that tree groups as the source tree |
| `OperandPrecedence.CanonicalExactly` | internal/translate/mysql_visitors.go:840-889 | The pass leaves the tree in the form PostgreSQL's levels and associativity give its tokens, under the same condition |
| `OperandPrecedence.PassIdempotent` | internal/translate/mysql_visitors.go:840-889 | A second pass adds no parentheses |
| `OperandPrecedence.PassKeepsMeaning` | internal/translate/mysql_visitors.go:840-889 | Erasing parentheses after the pass gives the erased input tree |
| `OperandPrecedence.PassSpaces` | internal/translate/mysql_visitors.go:840-889 | After the pass a prefix operator is never followed by a bare operator, so no two operators are printed as one token |
| `OperandPrecedence.NoOpExactly` | internal/translate/mysql_visitors.go:836-889 | A tree that PostgreSQL groups as it stands gets no parentheses exactly when it has no IN test on the left of an operator that binds as tightly or tighter, no NOT as a right operand above its level or as a bound, and no operator under a prefix operator other than NOT |
| `OperandPrecedence.InTestWrapped` | internal/translate/mysql_visitors.go:836-889 | a IN (b) + c, the sum of the test and c, is such a tree that does get some |
| `OperandPrecedence.ManualOrder` | internal/translate/mysql_visitors.go:742-785 | The levels are in the order of PostgreSQL's manual, from OR up to ^, with NOT above AND |
| `OperandPrecedence.PlainPrefixesSound` | internal/translate/mysql_visitors.go:790-802 | With NOT, + and - as the only prefix operators the round trip holds for every tree |
| `OperandPrecedence.GenericPrefixRegroups` | internal/translate/mysql_visitors.go:790-802 | ~a + b is printed as it is, and PostgreSQL reads ~(a + b): the level of other prefix operators is too high |
| `OperandPrecedence.TablesAgree` | internal/translate/mysql_visitors.go:765-785 | Every operator PostgreSQL has, but the null-safe comparison, is read at the level the translator assigns |
| `PgReaderProofs.ReadsExactly` | internal/dialects/postgres/expr_writer.go:32-78 | Precedence climbing over PostgreSQL's levels reads tokens as a tree exactly when the tree is in canonical form and those are its printed tokens |
| `OuterJoin.VisitOuterJoin` | internal/translate/oracle_visitors_outerjoin.go:51-195 | The rewrite, loops and all: the SELECT it returns, when it returns one, and what is left of the WHERE tree that was given; `OuterJoinSides` says both off the given SELECT |
| `OuterJoinSides.RewritesExactly` | internal/translate/oracle_visitors_outerjoin.go:51-166 | A SELECT is rewritten exactly when some conjunct of its WHERE has a hint, each that has one is a comparison other than OR of a marked column of a FROM item with something unmarked that is no column of that item, and some item is named by no hint or the name of the first item is used again |
| `OuterJoinSides.HintedSideJoins` | internal/translate/oracle_visitors_outerjoin.go:336-357 | In a rewritten SELECT the conjunct with a marked column, on either side, is, without its mark, in the ON clause of an outer join whose right side is the table the marked column names |
| `OuterJoinSides.JoinedIsHinted` | internal/translate/oracle_visitors_outerjoin.go:147-166 | Conversely every outer join that was not given is of a FROM item, and each conjunct of its ON clause is a hinted one that names the item |
| `OuterJoinSides.ClassExactly` | internal/translate/oracle_visitors_outerjoin.go:336-357 | A conjunct joins table a exactly when it compares, on either side, a marked column of a with something unmarked that is no column of a |
| `OuterJoinSides.SidesAlike` | internal/translate/oracle_visitors_outerjoin.go:336-357 | Swapping the sides of a comparison leaves its class unchanged |
| `OuterJoinSides.OrderFirst` | internal/translate/oracle_visitors_outerjoin.go:114-121 | The tables are joined in the order in which the conjuncts first name them |
| `OuterJoinSides.StartsAtFirst` | internal/translate/oracle_visitors_outerjoin.go:123-143 | The chain starts from the first item that no hint names, or from the first item when hints name them all |
| `OuterJoin.FlattenAnd` | internal/translate/oracle_visitors_outerjoin.go:212-231 | Appends the top-level conjuncts, parentheses dropped, in order |
| `OuterJoin.FoldAnd` | internal/translate/oracle_visitors_outerjoin.go:236-245 | The loop gives the left-leaning AND chain |
| `OuterJoin.Classify` | internal/translate/oracle_visitors_outerjoin.go:84-106 | Splits the conjuncts into join predicates and residuals, up to the first refusal |
| `OuterJoin.Group` | internal/translate/oracle_visitors_outerjoin.go:114-121 | Join predicates by hinted alias, in order of first appearance |
| `OuterJoin.FindBase` | internal/translate/oracle_visitors_outerjoin.go:126-143 | The first item that is not hinted, else the first |
| `OuterJoin.BuildChain` | internal/translate/oracle_visitors_outerjoin.go:147-166 | The LEFT JOIN chain, or nothing when an alias is missing or its item is used |
| `OuterJoin.KeepOthers` | internal/translate/oracle_visitors_outerjoin.go:170-175 | The items the chain does not use, in order |
| `OuterJoinTheorem.RewriteKeepsBag` | internal/translate/oracle_visitors_outerjoin.go:111-194 | For every database and every meaning of operators, the rewritten SELECT returns the bag of rows of the cross product of the unhinted tables, left-joined to each hinted one on its predicates and filtered by the rest, when the FROM list is acceptable and the hinted conjuncts of each alias read nothing that is joined later |
| `OuterJoinRows.UnhintedRowsStay` | internal/translate/oracle_visitors_outerjoin.go:22-34 | What `(+)` is for: where every condition has a hint, each combination of rows of the tables that no hint names is in the result of the rewritten SELECT, whether or not rows of the hinted tables match |
| `OuterJoinRows.OuterExactly` | internal/translate/oracle_visitors_outerjoin.go:145-166 | The rows of an outer join, as the bags have it: each left row with its matches, or with NULLs when it has none |
| `OuterJoinTheorem.ScopedExactly` | internal/translate/oracle_visitors_outerjoin.go:111-175 | PostgreSQL accepts the rewritten FROM list exactly when the given one was acceptable and every hinted conjunct of the k-th hinted alias reads only the base item, the aliases hinted before, and its own |
| `OuterJoinTheorem.SimpleJoin` | internal/translate/oracle_visitors_outerjoin.go:22-34 | FROM a, b WHERE a.id = b.id(+) becomes FROM a LEFT JOIN b ON a.id = b.id, in scope |
| `OuterJoinTheorem.BaseOutOfScope` | internal/translate/oracle_visitors_outerjoin.go:123-175 | The condition fails for FROM a, b, c WHERE c.id = b.id(+): it becomes FROM a LEFT JOIN b ON c.id = b.id, c, because the base is the first unhinted table, and PostgreSQL does not know c in the ON clause |
| `OuterJoinTheorem.FromKeepsBag` | internal/translate/oracle_visitors_outerjoin.go:145-175 | Moving the unhinted tables after the LEFT JOIN chain keeps the bag |
| `OuterJoinTheorem.UnhintedItems` | internal/translate/oracle_visitors_outerjoin.go:123-143 | The base and the items left over are exactly the unhinted tables, in order, the base first |
| `OuterJoinProofs.RegroupKeepsMeaning` | internal/translate/oracle_visitors_outerjoin.go:212-245 | Splitting at AND and folding again keeps the three-valued meaning, parentheses around OR included |
| `OuterJoinProofs.Swap` | internal/translate/oracle_visitors_outerjoin.go:147-175 | A cross product passes through an outer join whose condition does not read it |
| `OuterJoinParts.ConjunctsOnce` | internal/translate/oracle_visitors_outerjoin.go:84-121 | The ON conjuncts of the returned FROM tree and the conjuncts of the returned WHERE are, counted, the given ON conjuncts and the WHERE conjuncts without their hints; no hint is left but in an ON clause that was given |
| `OuterJoinParts.ItemsOnce` | internal/translate/oracle_visitors_outerjoin.go:145-175 | The returned FROM tree has the tables and subqueries of the given list, each as often |
| `OuterJoinParts.RefusalKeepsTreeExactly` | internal/translate/oracle_visitors_outerjoin.go:84-109 | A refused SELECT keeps its tree exactly when no conjunct classified before the refusal had a hint: stripping works in place |
| `OuterJoinParts.LateRefusalLosesHint` | internal/translate/oracle_visitors_outerjoin.go:90-106 | a.id = b.id(+) AND f(b.x(+)) = 1 is refused, and comes back with the first hint gone |
| `OuterJoinText.WhereReadsBackExactly` | internal/translate/oracle_visitors_outerjoin.go:179-189 | The residual WHERE, printed without the dropped parentheses, is read back as it was meant exactly when there is at most one residual or none is an OR |
| `OuterJoinText.GroupedRegroups` | internal/translate/oracle_visitors_outerjoin.go:212-245 | a.id = b.id(+) AND (a.x OR a.y) AND a.z is rewritten, and its WHERE is read back as a.x OR (a.y AND a.z) |
| `Planner.Plan.Build` | internal/planner/planner.go:67-265 | Build's loops append exactly the planned steps: their kinds, their targets and all their dependencies, whatever the order of its maps |
| `Planner.Plan.AddCopies` | internal/planner/planner.go:105-148 | One copy for each table, after create_ddl; a repeated name stands for its last copy |
| `Planner.Plan.AddIndexes` | internal/planner/planner.go:152-165 | One index step for each copied name, after that copy |
| `Planner.Plan.LinkViews` | internal/planner/planner.go:225-255 | View steps also wait for the views that the first view of their name reads, and nothing else changes |
| `Planner.FindUses` | internal/planner/planner.go:229-234 | The lookup of a view by name stops at the first one |
| `PlannerProofs.DistinctViewsWait` | internal/planner/planner.go:225-255 | With distinct view names the step of view i depends on the step of view j exactly when j is another view and its name is among the references of view i |
| `PlannerProofs.ViewWaits` | internal/planner/planner.go:225-255 | With repeated names the references of the first view of the name decide, and a name stands for its last step |
| `PlannerProofs.RoutineWaits` | internal/planner/planner.go:191-212 | A routine waits for create_fk and for the last view of each name it reads, and for no other view |
| `PlannerProofs.CopiesExactly` | internal/planner/planner.go:105-148 | Unless data is skipped every table and every history table has its copy, and nothing else has |
| `PlannerProofs.PlanClosed` | internal/planner/planner.go:67-265 | Every dependency is a step of the plan, and ids are distinct |
| `PlannerProofs.PlanAcyclicExactly` | internal/planner/planner.go:225-255 | The plan is acyclic exactly when the references between views, found through the first view of a name and leading to the last one, are |
| `PlannerProofs.FkWaitsForCopiesExactly` | internal/planner/planner.go:150-175 | create_fk waits for every copy exactly when no two copies have one target |
| `PlannerProofs.FkReachesCopyExactly` | internal/planner/planner.go:150-175 | Of the copies with one target, create_fk waits for the last one only |
| `PlannerProofs.FkWaitsForDdlExactly` | internal/planner/planner.go:166-175 | create_fk waits for create_ddl exactly when data is skipped in the plan or there is a table: without tables it waits for nothing |
| `PlannerProofs.CopyWaitsForDdl` | internal/planner/planner.go:105-148 | Every copy waits for create_ddl |
| `PlannerProofs.BuildLeveled` | internal/planner/planner.go:67-302 | The whole planner returns exactly when the references between views are acyclic; each level is then the longest chain, strictly falling along every dependency |
| `Levels.Resolve` | internal/planner/planner.go:276-298 | A call that returns leaves every level it settled one above the highest of the dependencies and spoils none that was settled; it returns when the graph is acyclic, nesting no deeper than any ranking |
| `Levels.AssignLevels` | internal/planner/planner.go:271-302 | The recursion ends exactly when the graph is acyclic, nesting no deeper than there are steps; each level is then the step's longest chain of known dependencies, and nothing else has changed |
| `Levels.DepthIsLongest` | internal/planner/planner.go:276-298 | The computed depth is the length of the longest chain, whatever ranking shows the graph acyclic |
| `Levels.EdgeLowersLevel` | internal/planner/planner.go:276-298 | Longest chains strictly fall along every edge |
| `StartRun.Remap` | internal/httpapi/runs.go:161-179 | Each step gets its fresh id, and each dependency the fresh id of its step or, if it has none, stays |
| `StartRun.RemapKeepsEdges` | internal/httpapi/runs.go:161-179 | The remap is an isomorphism: the same edges between the same positions, repeated ids included |
| `StartRun.RemapKeepsClosedExactly` | internal/httpapi/runs.go:161-179 | The run is closed exactly when the plan was, and has distinct ids exactly when the plan had |
| `StartRun.RunSteps` | internal/httpapi/runs.go:161-206 | Whatever the mode, the steps of a run are closed, distinct, and leveled, so acyclic; without data no dependency is repeated |
| `SkipData.Filter` | internal/httpapi/runs.go:811-855 | The loops give the steps left with their rerouted dependencies |
| `SkipData.ReroutedExactly` | internal/httpapi/runs.go:834-851 | The new dependencies are the old ones left, and the first step left in place of any dropped one, each once |
| `SkipData.FilteredFrom` | internal/httpapi/runs.go:811-855 | Every step left is one that is neither a copy nor the validation, unchanged but for its dependencies: those that are left and, if it waited for a dropped step, the first step left |
| `SkipData.FilteredHas` | internal/httpapi/runs.go:811-855 | Every step that is neither is left |
| `SkipData.FilterCloses` | internal/httpapi/runs.go:811-855 | The filter of a closed plan leaves no dangling and no repeated dependency |
| `SkipData.FilterKeepsLevels` | internal/httpapi/runs.go:811-855 | The levels stored before the filter still fall along every edge of the filtered graph |
| `SkippedPlan.PlanStartable` | internal/planner/planner.go:67-302 | What the planner stores satisfies what starting a run relies on |
| `SkippedPlan.SkippedFkWaitsForDdlExactly` | internal/httpapi/runs.go:811-855 | In a run without data create_fk still waits for create_ddl exactly when data was already skipped in the plan: otherwise the index steps are rerouted to the first step |
| `RunStore.Store.Enqueue` | internal/queue/store.go:51-80 | Inserts one waiting job with three attempts, none used, exactly when its step and its batch have rows; otherwise nothing changes |
| `RunStore.Store.Claim` | internal/queue/store.go:83-119 | Claims a waiting job with attempts left, which uses one of them, and finds none exactly when there is none |
| `RunStore.Store.Succeed` | internal/queue/store.go:122-127 | Whatever the job was it is done; nothing else changes |
| `RunStore.Store.Fail` | internal/queue/store.go:131-149 | Whatever the job was it can be claimed again exactly when it has attempts left, and is dead otherwise; no other job changes |
| `RunStore.Store.RequeueOrphans` | internal/queue/store.go:155-184 | No expired job is claimed any more: it can be claimed again exactly when it has attempts left; and no step with a dead job of its own is left pending or running, nor any other step changed |
| `RunStore.Store.StartRun` | internal/httpapi/runs.go:245-284 | The rows of a new run: all steps pending, one job for each step without dependencies in auto mode, none in manual mode |
| `RunStore.Store.MarkRunning` | internal/worker/pool.go:131-134 | A pending step is running, any other stays as it is |
| `RunStore.Store.Complete` | internal/worker/pool.go:179-211 | The step has succeeded exactly when it had, or has no batch, or has no batch open and no job waiting or claimed; otherwise it stays as it was |
| `RunStore.Store.FailStep` | internal/worker/pool.go:145-151 | A step with a dead job fails, even one that had succeeded; without one nothing changes |
| `RunStore.Store.FinishBatch` | internal/worker/handlers.go:279-282 | The open batches of every step lose this one |
| `RunStore.Store.InsertBatch` | internal/worker/handlers.go:221-230 | ON CONFLICT DO NOTHING: a row under the new id unless the step already has a batch with the number |
| `RunStore.Store.ExpandCopy` | internal/worker/handlers.go:207-246 | The loop inserts a batch and a job for the number of each range in one transaction; it succeeds exactly when no number is repeated and the step had no batch with one of them, because a job for a batch that was not inserted breaks its foreign key and rolls all back; each number then has a batch and a job under ids of their own |
| `RunStore.ExpandedRows` | internal/worker/handlers.go:219-243 | An expansion gives every number its batch and its job, and changes and adds nothing else |
| `RunParts.ExpandTable` | internal/worker/handlers.go:207-246 | From the table to its batches: the parts of the plan become batches with their numbers, a job each, exactly when the step has no batch numbered below their count |
| `RunParts.OneBatchEach` | internal/worker/handlers.go:219-243 | A step without batches, expanded into n parts, has exactly one batch for each number below n, with exactly one job, waiting |
| `RunParts.NoOtherBatch` | internal/worker/handlers.go:219-243 | And no other batch |
| `RunStore.Store.JudgeTick` | cmd/squishy/main.go:285-325 | Only a running run with steps changes: it succeeds exactly when all of them have, and fails exactly when a step stopped, none runs, and every pending step waits for a known one that has not succeeded; one that goes on has something that runs or can |
| `RunStore.Store.CancelRun` | internal/httpapi/runs.go:472-490 | The run is cancelled, the jobs that wait or are claimed are dead, no other job and no step changes, and the dispatcher finds the steps it would have found |
| `RunStore.Store.RetryRun` | internal/httpapi/runs.go:492-517 | The run is running; jobs that are broken, dead or claimed wait again with all attempts, failed and running batches and all steps that have not succeeded are pending; the rest stays |
| `RunStore.Store.PlayLevel` | internal/httpapi/runs.go:522-589 | A run that had its verdict is running again, any other stays as it was; the steps of the level are unlocked and, if they had stopped, pending, their jobs that are not done wait with all attempts, their failed and running batches are pending; the rest stays |
| `RunStore.Store.PlayStep` | internal/httpapi/runs.go:658-716 | The same for one step |
| `RunStore.Store.ReplayLevel` | internal/httpapi/runs.go:595-653 | A run that had its verdict is running again; every step from the level up is pending and unlocked, its jobs and batches gone; the rest stays |
| `RunStore.Store.ReplayStep` | internal/httpapi/runs.go:721-783 | The same for the step and the steps that wait for it at any remove, which the recursive query, as a loop, finds |
| `RunReopen.OpenAgain` | internal/httpapi/runs.go:575-582 | After a play or a replay, whatever verdict the run had, and until the judge next looks or it is cancelled: the run is running, the judge would be silent exactly while a step runs or is pending with no known dependency open, and once all steps have succeeded it finds that the run has |
| `RunLoops.WorkOnce` | internal/worker/pool.go:87-192 | A round of a worker is a run of its events; it claims nothing exactly when nothing can be claimed, uses up one attempt, and leaves the job done exactly when the handler did its work, which an expansion over existing batches never does |
| `RunLoops.SuperviseOnce` | internal/worker/pool.go:63-78 | A round of the supervisor is its two events: no expired job stays claimed, no step with a dead job of its own stays open |
| `RunLoops.DispatchOnce` | cmd/squishy/main.go:197-240 | A tick that nothing interrupts is a query and one insert for each ready step: exactly the pending, unlocked steps with all dependencies succeeded and no job of their own gain one, waiting with three attempts, and none stays ready |
| `RunLoops.JudgeOnce` | cmd/squishy/main.go:285-325 | A round of the judge is its event |
| `RunLoops.Operate` | internal/httpapi/runs.go:472-783 | Each of the operator's six calls is the run of its events, keeps the queue sound, and leaves the run cancelled by cancel, running by retry, and otherwise running if it had its verdict and as it was if not |
| `RunQueue.AttemptsBounded` | internal/queue/store.go:83-184 | In every reachable state, under any interleaving and any operator, no job exceeds its maximum of attempts and every waiting job can be claimed |
| `RunQueue.OneJobAlways` | cmd/squishy/main.go:197-240 | In every reachable state, even between the dispatcher's query and its inserts, a step has at most one job of its own, a batch at most one job, and a step no two batches with one number |
| `RunQueue.ClaimsPaid` | internal/queue/store.go:83-149 | Without second chances the claims of any stretch equal the attempts left at its start, plus three for each job inserted, minus those left at its end |
| `RunQueue.LeftStep` | internal/queue/store.go:83-184 | Each claim uses up exactly one attempt, each new job brings three, nothing else counts |
| `RunOrder.DependenciesFirst` | cmd/squishy/main.go:197-230 | In every reachable state of a calm run, a step that has a job, runs or succeeded has all its dependencies succeeded, and theirs, all the way down |
| `RunOrder.SafeKept` | internal/worker/pool.go:116-211 | Every calm event of workers, supervisor, dispatcher, judge and operator keeps the invariant behind the order |
| `RunOrder.CalmExactly` | internal/worker/pool.go:116-211 | From a safe state an event keeps the invariant exactly when it is calm: no second live attempt of a job, no completion while another claim on the step can still fail, no revived job of a succeeded step, no replay of a step that is claimed or about to be dispatched with a dependency |
| `RunBreaks.RevivalBreaks` | internal/httpapi/runs.go:492-589 | From every safe state: retry or play that revives a job of a succeeded step, on which a step with a job leans, lets workers alone, failing that job to its maximum, take the step down and break the order |
| `RunBreaks.EarlyCompletionBreaks` | internal/worker/pool.go:142-169 | From every safe state: a completion beside a claim that can still fail, when a dependent waits for nothing else, goes on to a dispatch of the dependent and a failure that breaks the order |
| `RunOrder.DescendantsExactly` | internal/httpapi/runs.go:742-752 | The recursive query finds exactly the steps that wait for the step at any remove, and nothing outside depends on them |
| `RunOrder.LevelsClosed` | internal/httpapi/runs.go:609-642 | Nothing below a level depends on a step from that level up |
| `RunVerdict.FailedExactly` | cmd/squishy/main.go:285-318 | While the steps that succeeded are in order, the verdict is failed exactly when a step stopped, none runs, and every pending step waits, at some remove, for a stopped one |
| `RunVerdict.FailedOnlyIfBlocked` | cmd/squishy/main.go:285-318 | Whatever the order: a failed verdict means that a step stopped, none runs, and every pending step waits, at some remove, for a stopped one |
| `RunVerdict.UndecidedExactly` | cmd/squishy/main.go:285-318 | A running run stays undecided exactly while a step is marked running, or is pending with no known dependency open; that step may be locked, or its job done |
| `RunHazards.ReplayUnderClaimBreaks` | internal/worker/pool.go:155-192 | For every safe state, step and dependency: a replay of both while a claim on the step has not failed lets that worker alone run or complete the step before its dependency |
| `RunHazards.ReplayUnderTickBreaks` | cmd/squishy/main.go:197-240 | A replay between the dispatcher's query and its insert gives a job to a step whose dependency is pending |
| `RunOverlaps.ReplayUnderClaimOvertakes` | internal/worker/pool.go:155-192 | For every safe state, claimed step and dependent: a replay of both but of no dependency goes on, without an operator, to a new job of the step, a completion by the old claim, a dispatch of the dependent, and a failure of the new job that breaks the order |
| `RunExamples.ReplayHappens` | internal/httpapi/runs.go:721-783 | Such a state, and such a replay of a step |
| `RunOverlaps.OverlapBreaks` | internal/worker/pool.go:142-151 | For every safe state, claim that can still fail and dependent that waits for its step alone: when the jobs left have attempts, the lock of the claim expires, others complete the step, the dependent is dispatched, and the late failure breaks the order, without an operator |
| `RunExamples.OverlapHappens` | internal/worker/pool.go:142-151 | Such a state |
| `RunExamples.RevivalHappens` | internal/httpapi/runs.go:492-517 | A safe state in which retry revives the dead job of a step that succeeded, under a dispatched dependent |
| `RunExamples.EarlyHappens` | internal/worker/pool.go:142-169 | A safe state with a completion beside a claim that can still fail, and a dependent that waits for it alone |
| `RunHazards.CrashStrands` | internal/worker/pool.go:163-169 | A crash between marking the job done and completing the step, batches or not, leaves a step whose jobs are all done stranded |
| `RunHazards.LastCrashStrands` | internal/worker/pool.go:163-169 | From every safe state: so does a crash of the last claim just before the completion that would have ended the step |
| `RunHazards.StrandedForever` | cmd/squishy/main.go:197-240 | A stranded step, and so its run, never succeeds under any interleaving without a replay of the step: retry and play do not help |
| `RunRescue.StrandedExactly` | internal/worker/pool.go:155-192 | In every safe state, of a step that has its job and has not succeeded: some run without a replay of it brings it to success exactly when it is not stranded |
| `RunRescue.SucceedsExactly` | internal/worker/pool.go:116-211 | In every reachable state, calm or not, and for any fixed number of ranges of the step's table: some run without a replay of a step that has its job brings it to success exactly when it is not stuck, that is, unless each of its jobs is done or is the own job of a step already expanded, and no claim on it can lead to a completion or give a useful job back |
| `RunRescue.StuckForever` | internal/worker/handlers.go:207-246 | A stuck step stays stuck under every run without a replay of it |
| `RunBatches.BatchedAlways` | internal/worker/handlers.go:207-282 | In every reachable state every batch has a job, and has been copied when that job is done or a claim on it is past its handler |
| `RunJams.SecondExpansionFails` | internal/worker/handlers.go:221-243 | In every reachable state: a committed expansion whose worker dies before it reports, a requeue and the next claim end in a handler error |
| `RunJams.StartedJams` | internal/worker/handlers.go:221-243 | A run from its start that gets there |
| `RunCancel.CancelDispatchesExactly` | internal/httpapi/runs.go:472-490 | After a cancel the dispatcher's next query hands out a job exactly when some step was ready before it |
| `RunCancel.CancelStopsExactly` | internal/httpapi/runs.go:472-490 | After a cancel of any state, some job is inserted later without an operator exactly when the dispatcher still holds a step, a claim can still expand a copy_table step, or a pending step waits only for steps that succeeded or that the claims left can finish |
| `RunCancel.InsertsLaterExactly` | cmd/squishy/main.go:197-240 | The same for every state whose jobs have all ended |
| `RunCancel.NeverInserts` | internal/worker/pool.go:116-211 | Where none of these holds, no run of events ever inserts a job |
| `RunPlan.AfterAncestors` | cmd/squishy/main.go:197-240 | In a calm run of a started plan, a step has a job only after everything the plan makes it wait for succeeded |
| `RunPlan.TriggersAfterCopies` | internal/planner/planner.go:126-175 | In an unfiltered calm run with distinct targets, create_fk, which installs the versioning triggers, has no job before every copy succeeded |
| `Partition.NumericRanges` | internal/dataxfer/partitioner.go:93-116 | The loop, in 64-bit arithmetic and for any bound on its rounds, is over at the first key beyond the last one, and when nothing wraps after as many rounds as the keys need |
| `Partition.NeverEnds` | internal/dataxfer/partitioner.go:99-114 | When the last key is the largest of 64 bits the loop never ends |
| `Partition.TilesExactly` | internal/dataxfer/partitioner.go:99-114 | The first rounds tile the keys, disjoint, contiguous, at most a batch wide, as many as the keys need, and end the loop, exactly when the last range and the step after it stay within 64 bits |
| `Partition.TileOf` | internal/dataxfer/partitioner.go:99-114 | Every key is in one range only |
| `Partition.OffsetRanges` | internal/dataxfer/partitioner.go:75-89 | The loop returns the offset batches, each numbered by its place |
| `Partition.OffsetsExactly` | internal/dataxfer/partitioner.go:75-89 | The offsets tile the rows and their counts add up to the total exactly when rounding up does not overflow; when it does there is no batch |
| `Partition.BuildPlan` | internal/dataxfer/partitioner.go:39-91 | No batch for an empty table, key ranges for one numeric key column, offsets otherwise; the default size is 10000; whatever the kind, batch i has number i |
| `KeyBounds.RoundingExactly` | internal/worker/handlers.go:258-269 | For keys of any size, the bounds read back as floats cover every key once exactly when neither outer bound rounds inward and each inner boundary is between keys of at most 53 bits or is read back as one float beyond all keys |
| `KeyBounds.Monotone` | internal/worker/handlers.go:258-269 | Rounding keeps the order of keys |
| `KeyBounds.Neighbours` | internal/worker/handlers.go:258-269 | Two neighbouring keys are both floats exactly when both have at most 53 bits |
| `KeyBounds.OneRowExactly` | internal/worker/handlers.go:258-269 | A table of one row keeps it exactly when its key is a 64-bit float |
| `FloatRounding.RoundedIsNearest` | internal/worker/handlers.go:258-269 | A bound is read back as the nearest of the integers with a significand of at most 53 bits, and of two equally near as the one whose last bit is zero |
| `FloatRounding.StaysExactly` | internal/worker/handlers.go:258-269 | It is read back unchanged exactly when it is one of them |
| `KeyBounds.OddKeyLost` | internal/worker/handlers.go:258-269 | The key 2^53+1 is read back as 2^53 |
| `BatchCopy.TargetTable.DeleteRange` | internal/dataxfer/copier.go:132-145 | Deletes exactly the rows of the range |
| `BatchCopy.TargetTable.CopyFrom` | internal/dataxfer/copier.go:105-128 | Appends the source rows of the range, or none when the statement breaks |
| `BatchCopy.TargetTable.CopyBatch` | internal/dataxfer/copier.go:87-130 | Delete then copy |
| `BatchCopy.Idempotent` | internal/dataxfer/copier.go:84-130 | A batch done again changes no row count |
| `BatchCopy.CopyIsExact` | internal/dataxfer/copier.go:110-170 | Whatever the order of batches and however often each was tried or died in between, once the last attempt of each copied, the target holds exactly the source rows, each as often |
| `BatchCopy.CopyExactly` | internal/dataxfer/copier.go:110-170 | Every complete interleaving is exact, whatever the target held in the ranges, exactly when each source row falls in one range |
| `BatchCopy.PlannedCopyExactly` | internal/dataxfer/partitioner.go:93-116 | The ranges of a plan copy every table with keys between its bounds exactly when the bounds survive being read back |
| `BatchCopy.SmallBoundsHold` | internal/dataxfer/partitioner.go:93-116 | Bounds of at most 53 bits do |
| `CopyOverlap.OverlapExactly` | internal/dataxfer/copier.go:84-130 | With the target's primary key enforced, attempts of one batch may overlap and die anywhere: the target is the source exactly when the last write of every batch with rows was a copy, be it one that failed on rows already there |
| `Concat.ConcatCall` | internal/translate/mysql_generated.go:321-357 | The loops build the chain and append every refusal, nested calls included |
| `Concat.Rewrite` | internal/translate/mysql_generated.go:278-301 | An accepted expression becomes its chain; a refused one comes back as it was, with a reason |
| `Concat.AcceptedExactly` | internal/translate/mysql_generated.go:321-416 | No reason is given exactly when every operand, nested ones included, is on the whitelist |
| `Concat.OperandExactly` | internal/translate/mysql_generated.go:351-434 | An operand that is no call is taken exactly when it is a string in ASCII or for a utf8mb4 column, an integer of at most 18 digits without leading zero, or the column's own name alone, its first column of that name, case aside, having one text on both servers |
| `Concat.TargetExactly` | internal/translate/mysql_generated.go:299-312 | The generated column is taken exactly when it is an unchanged VARCHAR of a character set |
| `ConcatMeaning.RewriteKeepsText` | internal/translate/mysql_generated.go:278-416 | On every row the chain stores the text of MySQL's CONCAT, whatever its charset conversions do to charsets that differ |
| `ConcatMeaning.NullExactly` | internal/translate/mysql_generated.go:278-416 | The stored value is NULL exactly when a column it reads is |
| `ConcatMeaning.PlainExactly` | internal/translate/mysql_generated.go:546-560 | The accepted integer tokens are exactly the decimal texts of the integers below 10^18: each fits BIGINT and prints back as itself |

## Left out

- RunOrder.DependenciesFirst: proved for calm runs (`RunOrder.Calm`), because the rows themselves do not enforce calm; `RunOrder.CalmExactly` shows that any other event leaves the invariant behind it at once, and runs that go on to break the order itself are given for each kind: replays (`RunHazards`, `RunOverlaps`), overlapping attempts (`RunOverlaps`), revived jobs and early completions (`RunBreaks`).
- RunQueue.ClaimsPaid: retry, play and replay are outside it; they hand out new attempts or delete jobs.
- RunStore.Store.Complete: the queries and the write of a completion are one step; so are the verdict query and the update of the judge, and the writes of a play or a replay, which are one transaction each. Everything else, the dispatcher's query and inserts, retry and cancel included, is one event for each statement.
- Partition.NumericRanges: the loop is followed for a given number of rounds, because it need not end; what it returns after a wrap, if it ends at all, is stated round by round only.
- KeyBounds.RoundingExactly: a bound that is rounded up to 2^63 is no 64-bit integer any more and is sent as a float; here it keeps its value.
- HistoryKey.KeySafeExactly: the runs start from an empty table; copied rows enter the other results as an initial state that already satisfies the invariant.
- OuterJoinTheorem.RewriteKeepsBag: SELECTs outside its condition, whose rewriting PostgreSQL refuses (`OuterJoinTheorem.ScopedExactly`): a repeated alias, a given ON clause out of scope, a hinted conjunct that reads what is joined later.
- OperandPrecedence.RoundTrip: operators that PostgreSQL does not have (MOD between operands, the null-safe comparison) are outside it, the lower bound of BETWEEN is read as an operand above the comparisons, while PostgreSQL's b_expr takes comparisons there and excludes AND, OR, NOT, LIKE, IN and BETWEEN; IN lists are lists of expressions, not subqueries.
- Planner.Plan.Build: payloads, priorities and row estimates; how the text of a view or routine is searched for names is given as the set of names found; a routine is assumed not to be named like a view.
- Levels.Resolve: the bound on the nesting of its calls stands for the stack; on a cyclic graph the code's recursion has no end.
- BatchCopy.CopyIsExact: attempts of one batch do not overlap; `CopyOverlap.OverlapExactly` is about those that do, where a late delete can empty a batch that counts as done. Not modelled: offset batches, which neither delete nor read in a fixed order; the conversion of values; a source that changes during the copy; keys that are not integers.
- Temporal.TriggersMean: only the emitted bodies; SQL text, quoting and schemas are not modelled, and timestamps are integers that never go backwards.
- Identifiers.FreeIdent: letter case is ASCII only; a search that runs past the numbers of a suffix of 54 bytes is bounded by `SysverNames.Numberable`.
- IdentHash.NamesApart: names that differ in more than one byte, or in length; a 32-bit hash can then give one tag to two of them.
- SysverNames.Plan.EmitSystemVersioning: how the names in use are collected from the plan is an input.
- RunCancel.CancelStopsExactly: the number of ranges is free at each expansion. That a step with batches can still finish may rest on an expansion into no range at all, which the code does only when the source table has become empty; so do `RunHazards.ReplayUnderClaimBreaks` for an own job that is still to be expanded, and `RunRescue.StrandedExactly`. `RunRescue.SucceedsExactly` holds the number fixed.
- RunRescue.SucceedsExactly: steps that have no job of their own yet; whether they get one depends on the steps they wait for.
- ConcatMeaning.RewriteKeepsText: the length limit of the generated VARCHAR, max_allowed_packet, and how the effective charset of a column is resolved.
- Rows of several runs in one database, priorities, backoff times and lock ages: a claim takes any waiting job, and any set of claims can expire.
- Drivers, connection pools, HTTP, server-sent events, the MCP server, the web interface, configuration and introspection: input and output only.
- Lexers and dialect parsers, type maps, dictionary views, the Oracle and DB2 text passes, the rewriters of dynamic DDL and triggers: table-driven or heuristic.
- User overrides of generated columns and the hazards of generated columns without CONCAT.
