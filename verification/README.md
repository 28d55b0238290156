# peQL, verified

A Dafny model of the parts of peQL that keep data and what is known of it right while several
writers are at work:

- **Commits of an Iceberg table.** Writers append, overwrite and compact one table by
  compare-and-swap on its current snapshot, with anything other writers do between any two looks at
  the table (`IcebergTable`, `RewrittenSnapshot`, `Commit`, `CommitRetry`, `Catalogs`, `Evolve`).
- **Facts.** A write never looks at old rows: the manifest after it is made of the one before it and
  of its own. The reference is validating every row (`Manifests`, `NullRate`, `Facts`,
  `FactsAgree`, `SnapshotFacts`, `Directory`, `Footer`).
- **Reads.** When the gate rewrite keeps a query's meaning, when stored and live views agree, when a
  view shows just the rows that pass every rule, and how those it leaves out are counted (`Gates`,
  `Views`, `Violation`).
- **Stores.** The result cache, the budget ledger, the scanner of a statement's first word
  (`QueryCaches`, `Budget`, `Guard`).

The classes are the program's objects with their fields and update them in place; the functions
beside them are the specification. Interference is explicit: a `Catalogs.Catalog` holds what other
writers will make of the table at each look, which may be any sequence of commits, schema changes,
rollbacks of the pointer, expiries and replacements that keeps snapshots and manifests immutable and
ids fresh. `Commit.Run` and `SnapshotFacts.Ledgers` are whole runs of such steps in any order.

## What is taken from elsewhere

- The catalog crate's append makes one new manifest after the base's, with the base's snapshot as
  parent and the base's totals, where it has them, with the files' own added. The catalog swaps the
  pointer only if the parent and the table's identity match.
- Snapshot ids are in order of creation, so a parent's id is smaller; this is what makes walks over
  parents end.
- Validation of a set of rows is a function of the rows (rule evaluation is not modelled); a
  compilation hash names one compilation; text hashes are a function of the text.
- Data files are immutable, and a write's file paths are under a directory of its own.
- An operation on doubles is exact to a relative 2^-53 (IEEE 754, section 4.3), and a duration made
  from seconds is rounded to the nearest nanosecond.
- A scan leaves out deleted rows. A delete file deletes rows of files no newer than it, by the
  table's sequence numbers, so never of a file added to a snapshot that already had it.

## Where the program does not do what it says

Each comes with a concrete input or a lemma that builds one from any table, and with the condition
under which the program does what it says.

- A compaction stamps its files with its own contract's hash, over rows copied with the flags they
  were stored with, so the view then trusts flags that are not the contract's. Rows vanish from it
  (`Views.CompactionHides`; of every table with rows some version's compaction hides them all,
  `Views.CompactionCanHide`), uncounted and with no refusal (`Views.HiddenNotRefused`); and rows that
  fail the contract's rules are shown (`Views.CompactionLeaks`). A view shows the rows that pass every
  rule and no others, whichever are admitted, exactly when it is live or the flags stored with every
  row say what the rules do (`Views.ViewExactly`; after a compaction, with every row it copies,
  `Views.CompactionKeeps`), and so in every run of compactions that copy such rows or stay within one
  hash (`Views.RunKeepsPromise`). A refusing read is refused exactly when some row fails a rule, and
  that is when the view's filter removes a row just under the condition of
  `Views.RefusedWhenRemoving`. After a compaction the two ways to take its contract's view agree,
  whichever rows are admitted, exactly when every row it copies that breaks no rule, as stored or as
  the contract computes it, is stored as the contract computes it, or when a file of another hash is
  left, since the view is then live (`Views.CompactionAlike`, `Views.StoredExactly`). They agree in
  every run whose compactions do so, or replace only files that carry the compacting contract's hash
  (`Views.StoredViewIsLive`).
- A compaction of a snapshot with delete files keeps the table's rows, but its facts cannot be
  combined: the row counts of the files it takes away include deleted rows. Asking for the facts of
  the snapshot it makes, or of one after it, is refused exactly when some row of the rewritten
  snapshot is deleted and its parent's facts are to be had (`SnapshotFacts.KnownAgrees`,
  `SnapshotFacts.CompactedDeletesRefused`); where no rewrite left a deleted row behind nothing is
  refused (`SnapshotFacts.NoneRefused`).
- `cannot_fail` lets a cast of a constant through. Where both sides of AND are evaluated a predicate
  it accepts fails exactly when such a cast has no value (`Gates.FailsWhenCastFails`); where AND may
  stop at its left side the rewrite can raise an error the query did not (`Gates.LazyCastFails`). The
  rewrite keeps a plan's rows exactly when what it moves below a gate has a value on each row there
  (`Gates.BarrierKeeps`), wherever the plan comes to it (`Gates.RewriteKeeps`): always where both
  sides are evaluated, and otherwise whenever the constant casts fold of each conjunct moved that
  comes after one that stays (`Gates.FoldedKeeps`).
- Two overwrites of one base can both land: they do whenever another writer rolls the pointer back to
  it between them, whatever the table and the files (`Commit.BothCommitAfterRollback`), and never
  otherwise (`Commit.OverwritesFromOneBase`).
- `same_type` ignores whether a struct's field or a map's value is required
  (`Evolve.RequiredIsIgnored`), not only ids; it is equality of types without those
  (`Evolve.SameTypeIsErasure`).
- Facts recorded with the snapshot asked for are returned whatever compilation they are of
  (`SnapshotFacts.OthersFactsReturned`); any that are replayed are of the reader's own
  (`SnapshotFacts.KnownAgrees`).
- Contract names that differ in `/` against `__` share a manifest file, and a read takes whatever the
  file holds: each manifest is right of the compilation it names, but a reader of one name is given
  the other's facts (`Directory.SharedServes`, `Directory.SharedManifest`: valid data by the other's
  rules, where the contract's own rule fails every row). After a write each contract has its own
  facts, just when its data stays known, exactly when no contract whose data stays known shares a
  file (`Directory.Engine.Publish`); after an overwrite, exactly when no two share one
  (`Directory.UnmixedOverwriting`).
- A newline in a path can make two file lists hash alike (`Manifests.NewlineCollides`, for any two
  paths in order). Lists hash alike exactly when they are read as the same pairs, where a path is cut
  wherever it reads as the end of a line: a colon, 64 characters and a newline
  (`Manifests.HashTextExactly`); where no path does, exactly when they hold the same pairs
  (`Manifests.HashTextReads`).
- A query that names a budget twice can pass its limit (`Budget.TwiceOver`); a budget is left within
  it exactly when all the query's charges to it fit together (`Budget.BudgetStore.ChargeAll`).
- A row group whose boolean statistics lack a bound can make a file all passing that is not
  (`Footer.MissingBound`), and so can one with rows stored without the flag, as a compaction can copy
  them, since bounds leave nulls out (`Footer.NullFlag`). The status is right exactly when no row's
  flag is null and no group without that bound holds a row that says otherwise
  (`Footer.StatusRight`).
- The null count reported of a snapshot includes deleted rows (`FactsAgree.DeletedNullCounted`); it
  is that of its rows exactly when no deleted row is null in the column (`FactsAgree.TableNulls`).
- A random share is computed in floating point, so a wait can pass twice its base
  (`CommitRetry.WaitPastTwice`), by no more than `CommitRetry.WaitBounds` says.

## Model

| member | source | states |
|---|---|---|
| Commit.RunSafe | src/iceberg_table.rs:886-944 | in every state of every run of peQL's and others' commits, each snapshot peQL made is its parent put through its operation, and labelled with it: an append adds exactly its rows, an overwrite has only its own, a rewrite has its parent's rows whatever was appended since the snapshot it rewrote and whether or not delete files deleted some of that one's; overwrites and rewrites count their live files right |
| Commit.OverwritesFromOneBase | src/iceberg_table.rs:1016-1039 | two overwrites of one base in a run force a foreign step between them that moved the pointer back to it |
| Commit.BothCommitAfterRollback | src/iceberg_table.rs:1030-1103 | for every table, current snapshot and two sets of fresh files, a run in which such a step comes between two overwrites of that snapshot and both commit |
| Commit.ProducedOk | src/iceberg_table.rs:911-922 | a commit over any right base leaves every snapshot, listing and total right, and is to other writers one of the things another writer may do |
| Commit.CarryingOk | src/iceberg_table.rs:1341-1399 | the manifests a rewrite carries forward, with their totals, are a right base, hold only data and delete nothing |
| Commit.RewriteParts | src/iceberg_table.rs:1326-1335 | over a snapshot made from the rewritten one that still lists all its manifests, the parent's files are exactly the rewritten ones and those carried, and its rows are the rewritten snapshot's and all of the carried files' |
| Commit.RewriteEffect | src/iceberg_table.rs:1120-1204 | a committed rewrite keeps its parent's multiset of rows, delete files or not, has every total, and replaces only files its parent holds |
| Commit.DataSplit | src/iceberg_table.rs:1326-1344 | the data files of a list are those of a list it still has every manifest of and those of the manifests added |
| Commit.DeadSame | src/iceberg_table.rs:1345-1352 | and the rows deleted are the same, since no manifest added deletes any |
| Commit.OverwriteEffect | src/iceberg_table.rs:1030-1103 | a committed overwrite holds just the write's rows and files, under the snapshot it began from, every total counted |
| Commit.AppendEffect | src/iceberg_table.rs:911-922 | a committed append holds the current snapshot's rows, deletes included, and then the write's |
| IcebergTable.Split | src/iceberg_table.rs:1326-1335 | the files a list of manifests holds are those of any manifests it lists and those of the rest, as multisets |
| IcebergTable.CountsTotal | src/iceberg_table.rs:1359-1369 | a manifest's added and existing counts are the files and rows alive in it |
| Rows.SumIs | src/iceberg_table.rs:1408-1421 | totals count the files, their rows and their bytes |
| IcebergTable.OthersKeep | src/iceberg_table.rs:1246-1263 | a snapshot holds the files and rows it was made with, whatever was committed since |
| RewrittenSnapshot.Rewritten.Carried | src/iceberg_table.rs:1287-1400 | gives the manifests added since and exactly what their live files add up to, whichever counts listings or summaries lack and whatever was scanned before; succeeds exactly when the rewritten snapshot is an ancestor, all its manifests are listed and nothing since can delete rows |
| RewrittenSnapshot.Rewritten.Scan | src/iceberg_table.rs:1404-1425 | a manifest's live totals, each manifest read once; refused exactly for an unread manifest with a live delete file |
| RewrittenSnapshot.WalkBack | src/iceberg_table.rs:1298-1313 | reaches the rewritten snapshot exactly when it is an ancestor over snapshots still in the metadata |
| RewrittenSnapshot.DescendsWhen | src/iceberg_table.rs:1298-1313 | which is when some line of parents leads to it through snapshots the metadata has |
| RewrittenSnapshot.SizeSince | src/iceberg_table.rs:1381-1398 | where both snapshots count their size, the difference is the size of what was added since |
| Catalogs.CommitAppend | src/iceberg_table.rs:907-923 | under any interference an append that succeeds is an append step of a run from the state at the swap; it is refused only after retries + 1 tries at each of which others had moved the table, and leaves that state |
| Catalogs.CommitOverwrite | src/iceberg_table.rs:1030-1103 | an overwrite that succeeds is an overwrite step over its base; where nobody moves the table meanwhile, the table as it was decides whether it lands, conflicts or has the wrong format |
| Catalogs.CommitRewrite | src/iceberg_table.rs:1120-1204 | a rewrite that succeeds is a rewrite step from the state at the swap, the files still a copy of the rewritten snapshot; it conflicts only where it may not be carried as the table is left, or when every attempt was beaten to the swap and no retry is left or the next would pass the total; it succeeds whenever others do no more than append, at no more looks than there are retries, and the waits fit; alone it succeeds exactly when it may be carried |
| Catalogs.TryRewrite | src/iceberg_table.rs:1145-1204 | an attempt beaten to the swap is followed by another until the retries or the time are used: the attempts are one more than the retries used, each beaten one cost others a look, and a refusal is one the table justifies |
| Catalogs.AddKeeps | src/iceberg_table.rs:1110-1114 | whatever a rewrite had, it still has after another writer appends: it may begin, and commit over the appended snapshot |
| Catalogs.AppendAdds | src/iceberg_table.rs:907-923 | an append of peQL's own is such an append to the other writers |
| Catalogs.PrepareRewrite | src/iceberg_table.rs:1146-1148 | the base of an attempt is made from a fresh load and exists exactly when the rewrite may be carried in that state |
| Catalogs.Pinned.LoadTable | src/iceberg_table.rs:1542-1562 | succeeds exactly when the pointer and the table's identity are the base's |
| Catalogs.Pinned.Commit | src/iceberg_table.rs:1594-1600 | never commits over another snapshot than the base's, and a refusal changes nothing |
| CommitRetry.WaitBounds | src/iceberg_table.rs:762-770 | every wait is between the base and min(twice the base, the maximum), with base = min(minimum * 2^min(n, 31), maximum), saturation included and each floating-point operation of the share rounded to a relative 2^-53; that rounding adds nothing below 2^50 ns, and at most one part in 2^51 and a nanosecond from there |
| CommitRetry.WaitPastTwice | src/iceberg_table.rs:762-770 | with doubles between 2^23 and 2^24 a wait of more than twice its base, by one nanosecond |
| CommitRetry.WaitNear | src/iceberg_table.rs:762-770 | a wait short of the maximum is the base and the random share of it, to half a nanosecond and one part in 2^51 of the base; one at the maximum would have been that long |
| CommitRetry.BaseGrows | src/iceberg_table.rs:762-770 | the base never decreases with the retries used |
| CommitRetry.BaseDoubles | src/iceberg_table.rs:762-770 | the base starts at the minimum and doubles with each of the first 31 retries, up to the maximum |
| CommitRetry.Retrying.Wait | src/iceberg_table.rs:780-800 | a retry is granted exactly when one is left and the time spent by then with the wait is within the total; so at most the policy's retries, and waits that sum to at most the total |
| CommitRetry.Retrying.WaitNext | src/iceberg_table.rs:780-800 | a retry is refused only when none is left or the next wait would pass the total; while all waits fit, only when none is left |
| Evolve.SameTypeIsErasure | src/iceberg_table.rs:595-616 | types are the same exactly when equal after erasing ids and the required marks the check does not read |
| Evolve.SameTypeTransitive | src/iceberg_table.rs:595-616 | being the same type is an equivalence |
| Evolve.RequiredIsIgnored | src/iceberg_table.rs:595-616 | types that differ only in a required field or map value are the same |
| Evolve.WhatMatters | src/iceberg_table.rs:595-616 | types differ by a primitive's name, by the required mark of a list's element, by a struct's field names and by the types within, and by nothing around these |
| Evolve.MissingIs | src/iceberg_table.rs:546-591 | the change is just the wanted columns the table lacks, each optional; refused exactly when a wanted column has another type, naming the first |
| Evolve.MissingInOrder | src/iceberg_table.rs:546-591 | they are added in the order they are wanted |
| Evolve.NothingMissing | src/iceberg_table.rs:546-591 | no change is needed exactly when the table has every wanted column with its type |
| Evolve.Evolve | src/iceberg_table.rs:480-541 | under any writers that only grow the schema, the table given back has every wanted column and the schema only grew; it fails for a wanted column the table has with another type, for a refusal of the catalog's own, or when the schema changed under every attempt and no retry is left or fits; it does not give up while others change the schema at no more looks than there are retries and the waits fit; alone it commits at most once and adds just the missing columns, or fails at the first of another type |
| Evolve.BeginWrite | src/iceberg_table.rs:412-445 | a write begins only when every column is there and the table requires none it does not write, and a refusal names a required column it does not, or one of another type; with no table it makes one of its own columns, refused exactly when another writer makes it first; alone it begins exactly when the types agree and nothing it does not write is required |
| Evolve.TableFor | src/iceberg_table.rs:418-433 | the table has every wanted column, made or evolved, or a wanted one has another type there, whenever the retries suffice |
| Evolve.ChangeGrows | src/iceberg_table.rs:546-591 | adding what is missing gives every wanted column and only grows the schema |
| Evolve.PromiseKept | src/iceberg_table.rs:434-445 | both still hold when the write commits, however the schema grew meanwhile |
| NullRate.CountRecovered | src/facts.rs:252-266 | with each operation rounded to a relative 2^-53, the exact count comes back from a rate for every row count below 2^50 |
| Manifests.HashTextExactly | src/manifest.rs:191-203 | any two lists of files hash the same text exactly when, in path order, they are read as the same pairs of path and hash, each path cut wherever it reads as the end of a line |
| Manifests.HashTextReads | src/manifest.rs:191-203 | lists none of whose paths reads so, as none does without a newline, hash the same text exactly when they hold the same pairs, in whatever order |
| Manifests.DataHashText | src/manifest.rs:191-203 | the loop makes the text of the sorted entries |
| Manifests.NewlineCollides | src/manifest.rs:191-203 | of any two paths in order, a file whose path holds the first one's line has the text of both files |
| Manifests.TableStats | src/manifest.rs:134-150 | the null count of just the columns every file counts, summed |
| Facts.CombineStats | src/facts.rs:229-290 | the loop keeps each statistic that combines, under its column |
| Facts.ComputeBreached | src/facts.rs:94-107 | the loop gives failed deny-level asserts and then guarantees, in order |
| FactsAgree.BreachedInOrder | src/facts.rs:94-106 | they are the ids of the denying asserts with failing rows and then of the denying guarantees that did not hold, each in the contract's order |
| FactsAgree.AppendAgrees | src/facts.rs:195-226 | after an append every fact kept is what validating all rows finds: count, failures, statistics, files, hash and verdict |
| FactsAgree.AppendKnows | src/facts.rs:229-290 | exactly which statistics are known after an append |
| FactsAgree.AfterNothing | src/facts.rs:144-157 | nothing is known after a write exactly when its facts, or those kept of the data, are of another compilation, and a rewrite of data without facts is the only error of its kind |
| FactsAgree.OverwriteAgrees | src/facts.rs:147-166 | after an overwrite, or an append to no data, the facts are those of the write's rows, no guarantee decided |
| FactsAgree.RewriteFinds | src/facts.rs:166-189 | a rewrite of files the facts list never misses one, and is refused exactly when they do not hold as many rows as it wrote; the files left are the others |
| FactsAgree.RewriteAgrees | src/facts.rs:166-194 | after a rewrite the facts agree with the data as before, under its new files, statistics and guarantees unchanged |
| FactsAgree.StatAppend | src/facts.rs:229-290 | each combined statistic is that of all the rows, null rates to the last bit |
| FactsAgree.CountsAre | src/facts.rs:197-205 | failures and nulls count rows, each once |
| FactsAgree.PassRateNear | src/facts.rs:241-248 | a pass rate is the share of rows that pass, to three parts in 2^53 |
| FactsAgree.ExtremeAppend | src/facts.rs:292-315 | the extreme of two sets of rows is found and is the extreme of all of them in the type's own order, for every type; of two that stand level it is the second |
| FactsAgree.KeysOrder | src/facts.rs:299-313 | values are compared as their type has it: whole numbers, reals, decimals and instants by size, text by its first character that differs, false before true |
| Order.BeforeIs | src/manifest.rs:191-203 | text, and so a path, comes before another when it ends first or has the lesser character where they first differ |
| FactsAgree.VerdictIs | src/facts.rs:94-107 | the verdict is valid exactly when no row fails a deny-level assert and each deny-level guarantee held when last decided |
| FactsAgree.TableNulls | src/manifest.rs:134-150 | a null count is reported exactly when every file counts the column; it is that of the rows and of the deleted rows still in the files, so of the rows alone exactly when no deleted row is null in the column |
| FactsAgree.RewriteNulls | src/facts.rs:166-194 | a rewrite changes a null count reported before and after only by deleted rows, and by none when it leaves no row deleted; a column comes to be reported when only replaced files did not count it, and ceases when a new one does not |
| FactsAgree.DeletedNullCounted | src/manifest.rs:134-150 | a null reported of data whose only row is deleted |
| FactsAgree.SettleFiles | src/facts.rs:220-224 | settling sorts the files and hashes them as any order would |
| SnapshotFacts.RunAgrees | src/engine.rs:1272-1317 | in every run of commits, reads, validations and other compilations' engines, facts answered under the reader's compilation agree with the whole snapshot, any other were recorded as they are, and asking is refused exactly from a rewrite of a snapshot with a deleted row on |
| SnapshotFacts.KnownAgrees | src/engine.rs:1281-1316 | facts under the reader's compilation come back exactly when recorded or replayable, and then agree; the replay is refused exactly at a rewrite of a snapshot with a deleted row, and from it on |
| SnapshotFacts.AfterParent | src/facts.rs:166-182 | the facts of one write over its parent's agree, or, for a rewrite that left deleted rows behind, are refused for their row count |
| SnapshotFacts.NoneRefused | src/facts.rs:166-182 | nothing is refused where no rewrite left a deleted row behind |
| SnapshotFacts.CompactedDeletesRefused | src/engine.rs:1334-1385 | a run of a validation and a compaction of a snapshot with a delete file, after which the facts are refused |
| SnapshotFacts.OthersFactsReturned | src/engine.rs:1288-1291 | facts another compilation recorded with a snapshot are the answer for it, whatever they say |
| SnapshotFacts.Store.IcebergFacts | src/engine.rs:1272-1317 | the walk back and the replay give the recursive specification's answer and record it |
| SnapshotFacts.Store.WalkBack | src/engine.rs:1281-1305 | the walk ends on the parent chain at recorded facts, an overwrite, a snapshot without a parent or one that is not known |
| SnapshotFacts.MemoisingIsHidden | src/engine.rs:1306-1315 | recording facts on the way changes the answer for no snapshot |
| Directory.Engine.Publish | src/engine.rs:1126-1178 | after a write every manifest left lists the directory's files and holds the facts of all rows, those there and those written, under the compilation it names; a contract alone on its file has a manifest exactly when the write replaced the data, the one there was under its own hash, or none was there and the directory was empty; every contract has its own facts just then exactly when none whose data stays known shares a file |
| Directory.Engine.FinishWrite | src/engine.rs:996-1052 | a refusing write publishes nothing exactly when a row fails an assert of its contract that drops or denies, and names just those asserts with how many rows; otherwise the files are published and manifests written as above |
| Directory.Engine.Bound | src/engine.rs:996-1008 | the writer's contract first, then every other bound one, once each |
| Directory.Engine.Validate | src/engine.rs:1390-1436 | validation records facts that agree and leaves the others as they are |
| Directory.Engine.Register | src/engine.rs:485-504 | another version of a contract leaves every manifest right of the compilation it names |
| Directory.AfterOne | src/engine.rs:1160-1172 | one contract's facts after a write: none exactly when its data was not known under its own compilation |
| Directory.FileNamesCollide | src/manifest.rs:152-155 | a slash and two underscores in a name give one manifest file |
| Directory.FileNameIs | src/manifest.rs:152-155 | a file name has two underscores for each slash and every other character as it is |
| Directory.UnmixedOverwriting | src/engine.rs:1136-1178 | for an overwrite that condition is that no two contracts share a file |
| Directory.SharedServes | src/engine.rs:614-623 | of two contracts that share a file, a read of at least one is given facts not of its compilation |
| Directory.SharedManifest | src/engine.rs:1390-1436 | two contracts, one directory: what the second is validated to be is served for the first, and what the first was found to be is lost |
| Footer.FoldStatus | src/binding.rs:319-343 | the fold over row groups gives the status from what each may hold |
| Footer.StatusRight | src/binding.rs:319-343 | a status of all passing or failing is true of every row exactly when no row's flag is null and no group without that bound holds a row that says otherwise |
| Footer.NullFlag | src/binding.rs:324-330 | a group with both bounds recorded as all passing with a row whose flag is null |
| Footer.StatusGiven | src/binding.rs:319-343 | it is given whenever every group has its bounds and every row says so |
| Footer.MissingBound | src/binding.rs:326-330 | a file recorded as all passing with a row that does not pass |
| Footer.SumNulls | src/binding.rs:344-360 | the nulls of the column, exactly when every group counts them |
| Views.StoredExactly | src/engine.rs:1730-1777 | both views of any rows are the same, whichever the contract admits, exactly when each row that breaks no rule, as stored or as computed, is stored as computed |
| Views.CompactionAlike | src/engine.rs:1334-1385 | after a compaction over any right table its contract's views agree exactly when it copies only such rows, or leaves a file of another hash |
| Views.StoredViewIsLive | src/engine.rs:1703-1777 | over any run under any versions whose compactions stay within one hash or copy only such rows, the view is the same rows stored or live |
| Views.CompactionHides | src/engine.rs:1334-1385 | a table compacted under a version whose enforced flag its rows lack shows nothing |
| Views.CompactionCanHide | src/engine.rs:263-283 | of every table with rows there is a version that every row passes and whose compaction, stamping its own hash, hides them all |
| Views.Recomputed | src/engine.rs:912-926 | computing flags and derived columns again on a stored row gives the row |
| Views.DerivedStored | src/engine.rs:912-926 | a stored row has in each derived column what the contract makes of the enriched row |
| Views.FilterRemoves | src/engine.rs:1756-1770 | a live flag filter lets a row through exactly when it passes every assert that drops or denies |
| Views.FilterExactly | src/engine.rs:1756-1770 | the filter a view uses, stored or live, lets through just the rows that pass exactly when it is live or each row's stored flags say what the rules do; and when it errs to one side only |
| Views.ViewExactly | src/engine.rs:1756-1777 | a view shows the outputs of the rows admitted that pass every rule, and no others, whichever are admitted, exactly then |
| Views.OutputsAre | src/engine.rs:1756-1777 | a view's columns are the contract's outputs, in order, by name |
| Views.StoredWhen | src/manifest.rs:184-186 | stored columns are read just when there are files and each carries the contract's hash |
| Views.CompactionKeeps | src/engine.rs:1334-1385 | after a compaction over any right table its contract's view does so exactly when each row copied has such flags, or a file of another hash is left |
| Views.RunKeepsPromise | src/engine.rs:1703-1777 | over any run under any versions whose compactions stay within one hash or copy only such rows, every view does so |
| Views.CompactionLeaks | src/engine.rs:1334-1385 | a run of a write and a compaction under a stricter version whose view shows a row that fails its rule |
| Views.RefusedWhenRemoving | src/engine.rs:1656-1662 | a refusing read is refused exactly when a row of the data fails a rule; that is when the filter of its view removes a row exactly if the filter is live, or the stored flags all pass just when the rules do |
| Views.HiddenNotRefused | src/engine.rs:1656-1662 | where stored flags hide a row and all rows pass, a refusing read is not refused |
| Views.ExcludedCounts | src/violation.rs:100-108 | what is counted as excluded is, for each assert that drops or denies and that some row fails, the number of rows that fail it |
| Violation.SplitRows | src/violation.rs:133-222 | rows are split, with counts by rule, exactly when every batch has the boolean flags and the columns needed |
| Violation.Partition | src/violation.rs:133-222 | every row is kept or set aside, in order, none lost, each set aside with the rules it broke |
| Violation.RulesExact | src/violation.rs:193-206 | a row's rules are exactly those whose flag is not true |
| Violation.RulesInOrder | src/violation.rs:193-206 | named in the contract's order |
| Violation.SetAsideWhen | src/violation.rs:87-96 | a row breaks a rule exactly when its flag of some assert that drops or denies is not true; it is set aside with those asserts and the schema's columns |
| Violation.RuleCounts | src/violation.rs:162-186 | with one flag a rule, its count is the rows that break it |
| Violation.CountsOf | src/violation.rs:162-186 | the count kept of an assert that drops or denies is the number of rows whose flag of it is not true, and none is kept of one that reports |
| Violation.BrokenWhen | src/violation.rs:100-108 | broken rules are exactly the asserts that drop or deny and that some row fails, with how many |
| Violation.BrokenInOrder | src/violation.rs:100-108 | in the contract's order |
| Violation.Writing.WritePart | src/engine.rs:884-979 | over any parts: where rows are excluded just those are written whose flag of every assert that drops or denies is true, each other one is set aside with its rules, and counts by rule are over all parts; else every row is written; a part that cannot be split changes nothing |
| Gates.RewriteKeeps | src/gate.rs:126-155 | of a plan that gives rows the rewritten plan, subqueries included, gives the same rows exactly when the conjuncts moved have a value wherever the plan's evaluation comes to them, and otherwise raises an error |
| Gates.FoldedKeeps | src/gate.rs:126-155 | so it always does where AND evaluates both sides, and where it may not, when the constant casts fold of each conjunct moved that comes after one that stays |
| Gates.BarrierKeeps | src/gate.rs:131-153 | at one gate the rows are kept exactly when the conjuncts moved have a value together on every row that comes through it |
| Gates.BarrierMoves | src/gate.rs:141-152 | all the conjuncts let through go below the gate and all the others stay above, each in order |
| Gates.SafeFirst | src/gate.rs:140-152 | taking the parts let through first changes nothing a filter sees, in three-valued logic, evaluated lazily or not, as long as neither they nor the whole fail |
| Gates.BelowGate | src/gate.rs:140-152 | at one node, below the gate there is what was there, or a filter over it that fails on no row |
| Gates.RewriteAt | src/gate.rs:126-155 | over the whole rewritten plan and its subqueries, a conjunct that may fail stands under exactly the gates it stood under before, as the plan had it |
| Gates.NeverFails | src/gate.rs:159-204 | a predicate let through fails on no row when its constant casts fold |
| Gates.FailsWhenCastFails | src/gate.rs:159-204 | evaluated strictly, it fails exactly when a constant cast in it has no value |
| Gates.LazyCastFails | src/gate.rs:193-194 | a plan that gives rows and whose rewrite raises an error |
| Gates.LetThrough | src/gate.rs:159-204 | just columns, constants, boolean connectives and tests, comparisons, try-casts, BETWEEN, IN a list of constants, LIKE without an escape and casts of a constant are let through, nested in any way |
| Gates.WalkCannotFail | src/gate.rs:159-204 | the walk that stops at the first node that may fail decides the recursive predicate |
| Gates.RewriteGated | src/gate.rs:494-511 | the check for gates accepts the rewritten plan exactly when it accepts the plan |
| Gates.GatedExactly | src/gate.rs:494-511 | a plan is accepted exactly when the innermost gate above each scan of it and of its subqueries is the scanned contract's, and a refusal names a contract scanned otherwise |
| QueryCaches.QueryCache.Get | src/cache.rs:102-119 | a hit is exactly an unexpired entry, the latest accepted answer not invalidated since, and becomes the most recently used |
| QueryCaches.QueryCache.PutIn | src/cache.rs:121-144 | what stays is the most recently used entries that leave room, in order; bytes and count stay within bounds; one too large changes nothing |
| QueryCaches.QueryCache.InvalidateContract | src/cache.rs:147-160 | drops exactly the answers that read the contract |
| QueryCaches.QueryCache.InvalidateAll | src/cache.rs:162-166 | leaves nothing held or counted |
| QueryCaches.TakenOut | src/cache.rs:147-160 | what is taken out is just the entries of a key, or those that read a contract, and the rest keep their order |
| QueryCaches.SizeIs | src/cache.rs:121-130 | an answer's size is the sum of its batches' |
| QueryCaches.KeyCovers | src/cache.rs:25-38 | over the same contracts, keys of the same text are of the same query and fingerprints, when no fingerprint has the unit separator |
| Budget.BudgetStore.ChargeAll | src/budget.rs:83-108 | all or none: refused for the first charge that by itself passes the limit and 10^-12; spent is the sum of accepted charges and what is left is the limit less that, or nothing; a budget is left within its limit and the tolerance exactly when the query's charges to it fit together, so always with each budget once, however often charged |
| Budget.BudgetStore.SetLimit | src/budget.rs:71-75 | changes one limit and nothing spent |
| Budget.KeyNames | src/budget.rs:89-89 | a ledger key names one budget and one caller when the budget's name has no unit separator |
| Budget.TwiceOver | src/budget.rs:90-106 | a query that names a budget twice leaves it over its limit |
| Guard.ScanFirstKeyword | src/guard.rs:95-128 | the scanner ends on every text and gives the recursive specification's word |
| Guard.KeywordIs | src/guard.rs:124-127 | a text with no comment or white space in front has its leading ASCII letters as the word, in capitals |
| Guard.BlankIgnored | src/guard.rs:96-96 | white space in front changes nothing |
| Guard.BlockCommentIgnored | src/guard.rs:103-120 | a closed block comment, however nested, in front changes nothing |
| Guard.LineCommentIgnored | src/guard.rs:98-102 | neither does a line comment |
| Guard.LastLineIgnored | src/guard.rs:98-103 | and one on the last line leaves nothing to read |
| Guard.OpenComment | src/guard.rs:103-120 | a comment that never closes leaves nothing to read |

## Left out

- Serving, signing, the command line and bindings: plumbing around the engine.
- What calls report beside their effects (a write's own facts, the text of a refusal beyond what it names).
- Rule evaluation, validation plans, Parquet and the catalog crate: taken as functions or as the
  contracts above.
- Crashes and input/output errors part way through a publication or a save: the properties are of
  completed steps.
- Publication to an object store: the local steps again over another store.
- Equality deletes: deletes are by file and position.
- A table dropped while a write is under way: other writers only grow its schema or replace the table.
- Floating point beyond rounding: not-a-number and infinities are not values; budgets are reals.
- Statistics of the contract's own over whole data: never combined, so any value is admitted for
  them after a validation.
- Context terms, query-time guarantees, shapes and annotations of a resolution.
- Correlated subqueries see the row of the query just around them, not of every query around it.
- Types in the gate's expressions: the planner makes both sides of a comparison one type; of two
  types a comparison is null here.
- `SnapshotFacts` follows one contract of a table. Another whose name, with `/` written as `__`, gives
  the same file of facts is there an engine of another compilation that records facts in it.
- Directory.Engine.FinishWrite: the rows a contract validates are given with their facts, since validation is not modelled; that they agree with the rows is required.
- Directory.Engine.Publish: manifests are computed before the files are moved rather than between saves; they read neither.
- FactsAgree.AppendAgrees: null rates are exact below 2^50 rows; a contract without one has no bound.
