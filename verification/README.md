# A verified model of edg

edg runs workloads against databases. This project models, in Dafny 4.11, the seven algorithms in it on
which the meaning of its results rests, and proves what they promise.

- **The batch text pipeline** (`Strings`, `Convert`, `Literals`, `Batch`, `Inline`, `InlineLimits`, `ValuesToken`,
  `BatchPipeline`, `BatchTemplates`, `BatchToken`, `Prepare`). Rows of values are printed as SQL literals, joined with the unit separator,
  inlined for `$N`, and parsed back by a quote-aware scanner into one statement per row. The scanner is proved
  exact against a definition of a batch group that does not mention scanning; the descending sequence of global
  replaces is proved equal to one simultaneous substitution for all values if and only if a condition on neighbouring
  tokens holds; and the whole pipeline is proved to give what running the query
  once per row would give, statements whose literals are read back, by the rules of the literals alone, as the
  values of their rows. Quoting follows section 5.3 of ISO/IEC 9075-2.
- **The include resolver** (`Expansion`, `Include`, `IncludeMeaning`, `IncludeTheorems`). Terminates on every
  finite file store, cyclic or not; succeeds exactly when the plain expansion, which knows no visited set, is
  finite; and gives the same tree, the only one that a relation between trees, node by node, lets the file stand
  for.
- **Table order and scripts** (`Schema`, `Scripts`). Kahn's algorithm over multi-edges, for every iteration
  order of the map; the up, deseed and down scripts are run statement by statement against a database that
  enforces foreign keys.
- **Verification of a copy** (`Sync`, `Mismatches`, `Verify`). A merge over two keyset-paginated cursors, against
  the difference of two tables defined by searching, and against the sets of rows without a partner and of cells
  that differ.
- **Argument generation** (`Args`, `BatchArgs`). The mixed-radix product against nested loops; chunked
  generation against generation row by row, for an arbitrary stateful evaluator that may fail.
- **Transactions, workers and statistics** (`Transaction`, `Run`, `Stats`). A retry loop against every
  behaviour of the database, expressions and context; a state machine of workers, background workers, the
  goroutine that waits for them and closes the channel, and the consumer; the fold into statistics.
- **Sampling and allocation** (`Sampling`, `Distribute`, `Weighted`, `Sequence`). Sampling without
  replacement over a shared index, sums conserved under rounding, exact odds, and shared sequences under
  every interleaving.

Code that updates state is a method or a class here, proved against a function or a declarative predicate;
what the source promises is then proved about that function. Random numbers, map iteration order, the
database, clocks, contexts and expression evaluation are arbitrary: parameters, or choices the proofs make
no assumption about.

`dafny verify dfyconfig.toml` checks everything.

## Findings

Where a promise does not hold of the code, the code is modelled as it is, a lemma gives the input, and the
condition under which it holds is proved.

- `distribute_sum` is documented to give positive parts (pkg/env/rand.go:343). A part of n can be negative, for
  some breakpoints, if and only if R - min(n - 1, R) / 2 is less than the total, R being the least whole number
  of units not below the total plus one half (`Distribute.NegativeExactly`): never for one or two parts, nor for
  three of a whole total, and for four of a whole total above 1 (`Distribute.MorePartsMoreNegative`). All parts
  are positive wherever the breakpoints fall just for one part of at least half a unit
  (`Distribute.PositiveExactly`); which parts of given breakpoints are zero is said by `Distribute.OthersZero`
  and `Distribute.LastPositive`. The parts sum to the total exactly if and only if the total has no more decimal
  places than the precision asked for (`Distribute.SumPartsFair`).
- `ref_diff` keeps one index for all datasets, so a dataset none of whose rows has been handed out can be
  exhausted by draws from another one; `Sampling.Env.RefDiff` says exactly when the call panics.
- An include at the root of a file, behind an alias of an anchored include, or in a key of a mapping is never
  resolved (`IncludeTheorems.MainRootStays`, `IncludeTheorems.IncludeRootStays`, `IncludeTheorems.AliasStays`).
  A resolved configuration holds no include tag anywhere if and only if neither its main file nor, at the place
  where it is included, a file that it leads to has one of these (`IncludeTheorems.Settles`). This is for trees
  whose aliases are quiet: an anchored tree is walked again through each of its aliases, and where an include in it
  brings along a root with the tag, that walk resolves it, against the file of the alias
  (`IncludeTheorems.WalkedTwice`); where none does, the further walks change and load nothing
  (`IncludeTheorems.WalkedOnce`).
- The deseed script truncates for pgx, dsql and oracle, and cascades only in its last statement
  (pkg/schema/generate.go:110-117). PostgreSQL and Oracle refuse to truncate a table that another one refers to,
  even if that is empty, so the script of a chain of three tables stops at its second statement
  (`Scripts.ChainNotTruncated`). It runs through if and only if all references are to the first table (pgx, dsql),
  or there are none (oracle); where it deletes, always (`Scripts.DeseedRuns`).
- With a batch size of 0 every two tables pass verification, on drivers that accept a limit of 0; SQL Server
  refuses it (`Verify.EmptyPagesPass`).
- Comparing keys is not transitive over numeric and other keys (`Sync.MixedKeysCycle`). It is one linear order if
  and only if no key that is not a number stands, as a text, behind the greater of two numbers and before the
  smaller (`Sync.CompareKeysLinear`); so it is if all keys are numbers, or none is.
- Placeholders are not always substituted at once: `$1$12` is read as `$10` and more when `$12` becomes `02`, and
  two quoted placeholders that share a quote are not kept apart (`InlineLimits.SharedQuote`). For all values without
  `$` the replaces are one substitution if and only if the query reads as a well-formed template, in which no two
  neighbours, and no bare placeholder with both its neighbours, can be read together (`InlineLimits.QueryExact`).
- A placeholder that stands behind one whose numeral begins with its own, such as `$1` behind `$10`, is translated
  wrongly (`Prepare.OutOfOrder`). Placeholders 1..n, once each in any order, all come out in the form of the driver
  if and only if none does. For mysql and cassandra that form is `?`, which takes the argument of its place, so
  `$2 $1` runs with its arguments swapped (`Prepare.SwappedArguments`): each placeholder keeps its own argument if and
  only if, besides, they ascend on these drivers (`Prepare.TranslatePlaceholders`).
- The token `__values__` is replaced in the text inlined for an exec_batch query, so in its values too: for the
  query `($1)` and the rows `__values__` and `b` three statements are sent (`BatchToken.TokenInValue`). For a query
  without the token, the statements are those of the rows if and only if no formatted value of a column that the
  query uses holds it (`BatchToken.BatchExact`).
- A sequence repeats a 64-bit value after 2^64 / gcd(step, 2^64) values, and not before
  (`Sequence.DistinctValues`).
- A context that ends during the pause before a retry does not prevent that retry: the `break` there leaves
  the `select` (`Transaction.CutPauseTriesOnce`). With a negative number of retries a success is reported
  without any attempt (`Transaction.Env.RunTransaction`).
- A comment says that byte values are written `0x...` for mssql and `X'...'` for all others
  (pkg/convert/convert.go:203-205); the code writes `0x...` for cassandra too, and so does the model.

## Model

| member | source | states |
|---|---|---|
| `Batch.FindBatchGroups` | pkg/db/batch.go:15-81 | the ranges are in bounds, non-empty, in order and disjoint, and are exactly the maximal stretches between unquoted delimiters that hold an unquoted separator |
| `Batch.ScanExact` | pkg/db/batch.go:23-78 | from any position in any string, what is still to be found are exactly the groups that end there or later |
| `Batch.SpliceRow` | pkg/db/batch.go:110-113 | cutting from right to left equals rebuilding the query from left to right with row r of every group |
| `Batch.NoSepNoGroup` | pkg/db/batch.go:86-94 | if all separators are quoted, the query is returned as it is |
| `Batch.ExpandBatchQuery` | pkg/db/batch.go:86-118 | one statement per row of the first group, each with every group replaced by its part for that row, unless a group is too short, when the code panics |
| `Convert.QuoteRoundTrip` | pkg/convert/convert.go:242-254 | a quoted text reads back as itself by the rules for character literals, whatever follows it |
| `Literals.FormattedReads` | pkg/convert/convert.go:206-256 | every value that is not SQL text already is written as a literal that a reader of signs, digits, pairs of hexadecimal digits, quoted texts and UUIDs reads as that value, for each driver |
| `Literals.NumeralReads` | pkg/convert/convert.go:226-227 | a numeral is read, digit by digit, as its number |
| `Literals.UuidExact` | pkg/convert/convert.go:247-250 | the texts that cassandra gets bare are exactly those of five groups of hexadecimal digits |
| `Literals.SaysOne` | pkg/convert/convert.go:206-256 | a literal says two values only if they are one number, or an ObjectID and its digits as a text |
| `BatchPipeline.FormattedAtomic` | pkg/convert/convert.go:206-256 | whatever quotes and delimiters a value holds, the scanner crosses its literal without seeing a delimiter or separator and ends outside quotes |
| `BatchPipeline.ScanFill` | pkg/db/batch.go:15-81 | scanning a filled template finds exactly its slots, and none if there is one row |
| `BatchPipeline.SpliceSlots` | pkg/db/batch.go:110-113 | splicing a row into the slots fills the template with that row |
| `BatchPipeline.ExpandRoundTrip` | pkg/db/batch.go:86-118 | a template filled with joined columns expands to exactly n statements, the r-th being the template filled with the r-th values |
| `BatchPipeline.SlottedTokens` | pkg/env/env_query.go:114-136 | where slots stand between delimiters, which quotes a substitution takes along makes no difference |
| `BatchPipeline.ExecBatch` | pkg/env/env_args.go:267-275 | formatting, joining, inlining and expanding a batch gives the statements of running the query once per row, for queries without `__values__` and values of used columns without it; and statement r is the query with a literal in each place that is read back as the value of row r |
| `BatchPipeline.FillTells` | pkg/env/env_query.go:247-263 | a template filled with formatted values tells, where it is read back, those values |
| `BatchTemplates.DelimitedTemplate` | pkg/db/batch.go:7-13 | placeholders between any delimiters in ordinary text, such as `VALUES ($1,$2)`, are a batch template, for all numbers of them |
| `BatchTemplates.TwelveDelimiters` | pkg/db/batch.go:7-13 | which characters delimit |
| `BatchTemplates.GluedSlot` | pkg/db/batch.go:23-78 | behind any other character a placeholder is not one: the first row takes that character along |
| `BatchPipeline.RowRuns` | pkg/env/env_query.go:114-140 | running the query for one row alone sends the statement in question |
| `BatchPipeline.FillNoToken` | pkg/env/env_query.go:138-140 | if neither the template nor the value of a hole holds `__values__`, the filled template does not: none arises where they meet |
| `ValuesToken.ParametersReplaced` | pkg/env/env_args.go:21 | the token goes away with parameters of the form `(word(text))` behind it |
| `ValuesToken.ParametersOf` | pkg/env/env_args.go:21 | and nothing else is taken for parameters |
| `BatchToken.TokenWrong` | pkg/env/env_query.go:138-140 | if a filled template of any number of rows holds the token, putting a text in its place that begins neither with `_` nor with a delimiter or separator makes some statement another one |
| `BatchToken.BatchExact` | pkg/env/env_query.go:114-140 | for a query without the token, the text that is sent gives the statements of the rows if and only if no value of a column in use holds it |
| `BatchToken.TokenInValue` | pkg/env/env_query.go:138-140 | the query `($1)` and two rows, one of which is the token, that is sent as three statements |
| `Inline.SourceTokenize` | pkg/env/env_query.go:247-263 | reading a query as tokens loses nothing |
| `Inline.TokenizeWellFormed` | pkg/env/env_query.go:247-263 | a query whose placeholders stand clear of each other reads as a well-formed template |
| `Inline.ReplaceStep` | pkg/env/env_query.go:252-260 | one global replace does the holes of its own placeholder and nothing else, for any number of arguments |
| `Inline.ReplacedAtOnce` | pkg/env/env_query.go:247-263 | on a well-formed template all descending replaces together are one simultaneous substitution |
| `Inline.FillInert` | pkg/env/env_query.go:247-263 | after the substitution no `$` is followed by a digit that is the number of an argument |
| `Inline.InlineArgs` | pkg/env/env_query.go:247-263 | the result of the replaces for every query, and one simultaneous substitution where the query reads as a well-formed template |
| `Inline.ResolveArgs` | pkg/output/writer.go:98-107 | the same for the output writer, and a query in which no placeholder can be read does not change |
| `Inline.InlineForRun` | pkg/env/env_query.go:109-140 | the same for a run, which also takes double quotes along and replaces `__values__` if the first argument is raw |
| `Inline.CaptureAndWrite` | pkg/env/env_output.go:28-33 | resolving arguments again when the statement is written changes nothing, unless a `$` stands before a placeholder |
| `InlineLimits.WellFormedExact` | pkg/env/env_query.go:247-263 | the replaces of a whole template are one substitution for all values without `$` if and only if it is well-formed, for any number of tokens and arguments |
| `InlineLimits.QueryExact` | pkg/env/env_query.go:247-263 | the same for every query, as it reads |
| `InlineLimits.SubstitutesLocally` | pkg/env/env_query.go:252-260 | a template is substituted rightly for all such values if and only if every two neighbours in it, and every bare placeholder with both its neighbours, are when they stand alone |
| `InlineLimits.SharedQuote` | pkg/env/env_query.go:253-254 | a query whose quoted placeholders share a quote, on which the replaces are not one substitution |
| `Prepare.OneDollarLess` | pkg/env/env_query.go:300-302 | each round removes one `$`, so the loop ends on every query |
| `Prepare.OneRound` | pkg/env/env_query.go:300-302 | a round translates the placeholder of its number and nothing else, if that cannot be read before its place |
| `Prepare.WrongRound` | pkg/env/env_query.go:300-302 | otherwise it takes away more digits than its number has |
| `Prepare.TranslatePlaceholders` | pkg/env/env_query.go:288-304 | placeholders 1..n, once each in any order, all come out in the form of the driver if and only if none stands behind one whose numeral begins with its own, for all n; each place is read as a parameter that takes its own argument if and only if besides they ascend where the form is `?`, and a query without parameters of its own then has just these; other drivers keep the query |
| `Prepare.ReadExactly` | pkg/env/data.go:30-55 | the forms of a driver, read back as numerals or counted, take the arguments of their placeholders exactly when those ascend or the forms are numbered |
| `Prepare.FillTaken` | pkg/env/env_query.go:288-304 | what is read, from left to right, from a translated query that had no parameters of its own |
| `Prepare.SwappedArguments` | pkg/env/env_query.go:155-165 | on drivers with `?` the queries `$1 $2` and `$2 $1` become one text, which binds the arguments of the second one swapped |
| `Prepare.OutOfOrder` | pkg/env/env_query.go:300-302 | a query on which the first round translates the front of `$10` |
| `Expansion.GuardedIffPlain` | pkg/config/include.go:79-112 | expansion with a visited set succeeds if and only if blind expansion is finite |
| `Expansion.GuardedIsPlain` | pkg/config/include.go:79-112 | and gives the same tree |
| `Expansion.AllowedIffSoundChains` | pkg/config/include.go:86-95 | it succeeds if and only if every chain of includes leads to loadable files and repeats none |
| `Include.ExpandFile` | pkg/config/include.go:79-112 | expanding a file is grafting the expansions of what it includes into its tree |
| `Include.Resolver.LoadInclude` | pkg/config/include.go:79-112 | succeeds exactly when the guarded expansion does, with its result, blames a file really on an include chain otherwise, and restores `visited` on every exit |
| `Include.Resolver.ResolveIncludes` | pkg/config/include.go:14-75 | the same for a tree |
| `Include.Resolver.ResolveDocument` | pkg/config/include.go:20-25 | the same for the children of a document |
| `Include.Resolver.ResolveMapping` | pkg/config/include.go:27-42 | the same for the values of a mapping; keys are left alone |
| `Include.Resolver.ResolveSequence` | pkg/config/include.go:44-66 | the same for items, an included sequence being spliced in |
| `Include.Resolver.ResolveSlot` | pkg/config/include.go:30-41 | an include tag decides between loading and descending |
| `IncludeMeaning.ResolvesExact` | pkg/config/include.go:14-75 | the tree with its includes grafted is the one, and the only one, that the relation node by node lets it stand for |
| `IncludeMeaning.FileMeansPlain` | pkg/config/include.go:79-112 | the expansion of a file to a depth ends exactly if the file stands for a tree, and is that tree |
| `IncludeMeaning.SequenceSpliced` | pkg/config/include.go:44-66 | where an item of a sequence is an include, the items of an included sequence, once each and in order, or any other tree as one item, stand between what the items before and behind come to |
| `IncludeTheorems.TaggedExact` | pkg/config/include.go:27-71 | a tree holds an include tag if and only if a path of children and alias targets leads to a node with that tag |
| `IncludeTheorems.TagsGraft` | pkg/config/include.go:27-66 | where include tags are found in a resolved tree: those of the tree at no include position, and those that an included tree brings along |
| `IncludeTheorems.Settles` | pkg/config/include.go:14-112 | a resolved file holds no include tag if and only if it leaves none of its own and no file on the way leaves one where it is included, its aliases being quiet; walking an aliased tree again then changes nothing |
| `IncludeTheorems.IncludeRootStays` | pkg/config/include.go:107-111 | a store on which the include at the root of an included file stays |
| `IncludeTheorems.MainRootStays` | pkg/config/include.go:14-25 | a store on which the include at the root of the main file stays |
| `IncludeTheorems.AliasStays` | pkg/config/include.go:68-71 | a store on which an anchored include is resolved, and not behind an alias of it |
| `IncludeTheorems.WalkedOnce` | pkg/config/include.go:68-71 | where no include of an aliased tree brings along a tag at its root, the walks after the first one change and load nothing |
| `IncludeTheorems.WalkedTwice` | pkg/config/include.go:68-71 | a tree in which a second walk finds an include that the first one brought along |
| `IncludeTheorems.LoadConfig` | pkg/config/load.go:13-33 | on every store whose aliases are quiet: success if and only if the plain expansion ends, that is, if the file stands for a tree; that tree, free of include tags under the condition of `Settles`, and otherwise an error that is true of an include chain |
| `Schema.RefTableIs` | pkg/schema/schema.go:46 | a reference is to the table named in front of the first point |
| `Schema.EdgesExact` | pkg/schema/schema.go:40-56 | the edges are exactly the references between different tables |
| `Schema.CountDependencies` | pkg/schema/schema.go:31-56 | the two maps hold the children of every table and the number of references of each |
| `Schema.InitialQueue` | pkg/schema/schema.go:60-67 | in whatever order the map is read, the queue holds every table of degree 0 once |
| `Schema.Release` | pkg/schema/schema.go:83-88 | with repeated dependents, each degree drops by their number and a table is queued once, when it reaches 0 |
| `Schema.KahnStep` | pkg/schema/schema.go:69-89 | one round keeps the invariant of the algorithm |
| `Schema.BackwardWalk` | pkg/schema/schema.go:91-94 | if tables are left over, the references among them close a cycle |
| `Schema.NoCycle` | pkg/schema/schema.go:91-94 | if none is left over there is no cycle |
| `Schema.Verdict` | pkg/schema/schema.go:91-94 | the lengths agree if and only if names are distinct, references are listed and there is no cycle |
| `Schema.SortTables` | pkg/schema/schema.go:30-97 | success exactly then, and the result is a permutation with every parent before its children |
| `Scripts.BuildUp` | pkg/schema/generate.go:57-71 | the script in order; on sorted tables each statement finds the tables it references |
| `Scripts.RemoveLast` | pkg/schema/generate.go:104 | the last of the remaining tables is referenced by none of them |
| `Scripts.BuildDeseed` | pkg/schema/generate.go:102-126 | the reverse order; whichever tables hold rows, it empties all of them if no statement truncates, without cascading, a table that another one refers to, and stops otherwise |
| `Scripts.VerbExact` | pkg/schema/generate.go:127-136 | the verb in the name of a query is that of its statement |
| `Scripts.DeseedRuns` | pkg/schema/generate.go:110-137 | which schemas that is, for each verb |
| `Scripts.ChainNotTruncated` | pkg/schema/generate.go:110-117 | three tables whose deseed script is refused where it truncates |
| `Scripts.BuildDown` | pkg/schema/generate.go:139-158 | the reverse order, never dropping a table that a remaining one references, until none is left |
| `Scripts.GenerateScripts` | pkg/schema/generate.go:57-158 | whenever sorting succeeds, the up and down scripts run through, and the deseed script does under its condition |
| `Sync.CompareKeysExact` | cmd/edg/sync.go:382-396 | two numbers compare as numbers, all other keys as in a dictionary |
| `Sync.NullKey` | cmd/edg/sync.go:434-436 | a NULL key counts as the empty text |
| `Sync.CompareKeysLinear` | cmd/edg/sync.go:382-396 | the comparison is one linear order if and only if no key that is not a number stands between two numbers the wrong way round |
| `Sync.MixedKeysCycle` | cmd/edg/sync.go:382-396 | three mixed keys that compare in a circle |
| `Sync.SourceFirst` | cmd/edg/sync.go:308-315 | a smaller source row is one difference, and the rest is the difference of the rest |
| `Sync.TargetFirst` | cmd/edg/sync.go:317-323 | the same for a smaller target row |
| `Sync.EqualHeads` | cmd/edg/sync.go:287-306 | rows with one key differ in their columns and match no other row |
| `Sync.NoDifference` | cmd/edg/sync.go:261-353 | the difference is 0 if and only if every row has a partner and partners agree |
| `Sync.NextPage` | cmd/edg/sync.go:438-447 | the page after the last key fetched continues where the rows fetched end |
| `Sync.RowCursor.constructor` | cmd/edg/sync.go:262-263 | a new cursor has the whole table before it |
| `Sync.RowCursor.FetchBatch` | cmd/edg/sync.go:438-485 | the next page, the columns and the greatest key fetched |
| `Sync.RowCursor.Advance` | cmd/edg/sync.go:413-427 | fetches if need be; no row gets lost, and done is said only at the end of the table |
| `Sync.RowCursor.Next` | cmd/edg/sync.go:413-432 | hands out the first row still to come, each exactly once and in order, and nil from then on |
| `Sync.IndexColumns` | cmd/edg/sync.go:460-463 | the index reads as the position of every column, and 0 for one that is missing |
| `Sync.BuildCompareCols` | cmd/edg/sync.go:355-369 | the source columns that are not ignored and that the target has |
| `Verify.CompareColumns` | cmd/edg/sync.go:288-296 | the number of compared columns in which two rows differ, each table read by its own column order |
| `Verify.CompareHeads` | cmd/edg/sync.go:282-297 | which side goes on, and that the mismatches counted and the difference left add up |
| `Verify.MergeRound` | cmd/edg/sync.go:281-325 | a round goes on and loses no part of the difference |
| `Verify.ReadAll` | cmd/edg/sync.go:413-485 | reading a cursor to its end gives the ordered table, every row exactly once, for every size of page but 0 |
| `Verify.Drain` | cmd/edg/sync.go:327-344 | every row left over is one mismatch |
| `Mismatches.RowDiffsCount` | cmd/edg/sync.go:288-296 | the differences of two rows are as many as the compared columns in which their cells differ |
| `Mismatches.DifferenceCounts` | cmd/edg/sync.go:281-344 | the difference of two tables is the number of source rows without a partner, of target rows without one, and of cells in which partners differ |
| `Mismatches.CompareColsOften` | cmd/edg/sync.go:355-369 | each compared column is compared as often as the source lists it |
| `Verify.VerifyTable` | cmd/edg/sync.go:261-353 | the mismatches are as many as there are rows only in the source, rows only in the target, and cells in which partners differ |
| `Verify.CompareColsExact` | cmd/edg/sync.go:361-367 | the compared columns are exactly those in both tables that are not ignored |
| `Verify.PassedIff` | cmd/edg/sync.go:346-352 | no mismatch if and only if the tables agree on the compared columns, whatever the orders of the columns |
| `Args.ProductAt` | pkg/env/env_args.go:77-95 | row idx of the nested-loop product is the row read by the digits of idx; there are as many rows as the product of the lengths |
| `Args.RowAtPeriod` | pkg/env/env_args.go:83-87 | the digits of an index do not see multiples of the total |
| `Args.ProductMembers` | pkg/env/env_args.go:77-95 | the rows are exactly those that choose one row of each batch and have the scalars in their places |
| `Args.TotalPositive` | pkg/env/env_args.go:71-74 | there are rows if and only if no batch is empty |
| `Args.ProductOfLengths` | pkg/env/env_args.go:71-74 | the product of the lengths of the batches given |
| `Args.BuildRow` | pkg/env/env_args.go:78-94 | the row of an index, scalars in their places |
| `Args.ExpandArgs` | pkg/env/env_args.go:53-97 | the result is the nested-loop product, and says whether there was a batch |
| `BatchArgs.EvalRowExact` | pkg/env/env_args.go:244-255 | evaluating a row passes through states that begin with the cache of the row emptied, each argument being evaluated with those before it in view |
| `BatchArgs.EvalRowsExact` | pkg/env/env_args.go:243-263 | each row is evaluated in the state that the row before left |
| `BatchArgs.CaptureExact` | pkg/env/env_args.go:257-262 | a captured row has exactly the columns that have an argument, each with that of the last column of its name |
| `BatchArgs.OneChunk` | pkg/env/env_args.go:129-132 | without a size all rows are one chunk |
| `BatchArgs.ChunksCover` | pkg/env/env_args.go:184-188 | chunks are not empty, at most `size` long, and each begins where the one before ends, up to `count` |
| `BatchArgs.Env.EvalArgs` | pkg/env/env_args.go:246-255 | the arguments of one row, each evaluated with those before it in view |
| `BatchArgs.Env.CaptureRow` | pkg/env/env_args.go:257-262 | column names against arguments, as far as there are arguments, the later of equal names winning |
| `BatchArgs.Env.CaptureOutputBatch` | pkg/env/env_output.go:55-104 | the captured rows are those of evaluating row by row from the present state |
| `BatchArgs.Env.GenerateChunk` | pkg/env/env_args.go:240-275 | the next n rows, their formatted columns joined, and their captured rows |
| `BatchArgs.Env.GenerateBatchArgs` | pkg/env/env_args.go:117-281 | all rows, in chunks of `size`, the last one shorter, with each column of each chunk joined, and all rows captured; fails exactly if a row does |
| `BatchArgs.ChunkSizeIrrelevant` | pkg/env/env_args.go:267-275 | splitting the columns of the chunks gives the formatted values of all rows, for every size |
| `BatchArgs.SizesAgree` | pkg/env/env_args.go:184-281 | two chunk sizes and the row-by-row form succeed together, capture the same rows and split into the same values |
| `Transaction.Bracketed` | pkg/env/env_worker.go:105-134 | a begin, statements and one closing event are one complete transaction |
| `Transaction.Opened` | pkg/env/env_worker.go:116-133 | how an attempt that opens a transaction ends it |
| `Transaction.AttemptMade` | pkg/env/env_worker.go:71-99 | an attempt extends the history, and is the last one unless it failed with the context alive and retries left |
| `Transaction.Env.RunTransactionQueries` | pkg/env/env_worker.go:139-157 | sends exactly the queries before the first stop whose arguments can be generated, one result for each query run, and tells errors from conditional rollbacks |
| `Transaction.Env.TryTransaction` | pkg/env/env_worker.go:105-134 | every transaction opened is closed by exactly one commit, failed commit or rollback |
| `Transaction.Env.MakeAttempts` | pkg/env/env_worker.go:67-99 | attempts up to the last one, no more than retries allow |
| `Transaction.Env.RunTransaction` | pkg/env/env_worker.go:66-103 | complete transactions only, at most 1 + retries of them, a successful commit at most once and last, and on the channel the results of all queries run, in order, followed by that of the transaction |
| `Transaction.RunTells` | pkg/env/env_worker.go:81-101 | the last result is a success exactly if the last event is a commit, a rollback exactly if the last attempt reached a condition that holds, and a failure otherwise |
| `Transaction.RolledBackExact` | pkg/env/env_worker.go:139-157 | an attempt ends in a rollback exactly if it opens a transaction and passes all items up to a condition that holds |
| `Transaction.CommittedExact` | pkg/env/env_worker.go:105-134 | and commits exactly if it opens one, passes all items and can commit |
| `Transaction.ResultsTell` | pkg/env/env_query.go:76-81 | the queries run have one result each, in order, with their name, which says whether they failed |
| `Transaction.QueriesSent` | pkg/env/env_worker.go:139-157 | the queries sent are, in order, those whose arguments can be generated |
| `Transaction.OneReport` | pkg/env/env_worker.go:81-101 | exactly one result is that of a whole transaction, and it says how the last attempt ended |
| `Transaction.CutPauseTriesOnce` | pkg/env/env_worker.go:72-80 | a pause cut short is followed by exactly one more attempt |
| `Stats.Update` | cmd/edg/stats.go:70-130 | one more result turns the summary of a name into the summary of one result more |
| `Stats.Record` | cmd/edg/stats.go:65-130 | and the statistics of all names |
| `Stats.PrintResults` | cmd/edg/stats.go:40-135 | the statistics hold a summary for exactly the names in the results collected after the warmup |
| `Stats.NothingLost` | cmd/edg/stats.go:72-130 | errors and latencies are as many as the results, commits and rollbacks as many as the transactions without error |
| `Stats.CollectedSuffix` | cmd/edg/stats.go:44-63 | what is collected is a suffix of what is received, all of it without a warmup |
| `Run.BothSound` | cmd/edg/run.go:65-145 | in both ways to run, the channel is closed only when all workers have been waited for, and background workers are told to stop before they are waited for |
| `Run.AllStagesRun` | cmd/edg/run.go:69-94 | a run in stages that is not cancelled has started, when the channel is closed, the workers of every stage, at least one each, and all background workers |
| `Run.AllWorkersRun` | cmd/edg/run.go:120-136 | a run of one stage has started the workers asked for |
| `Run.Safe` | cmd/edg/run.go:58-94 | in every interleaving no send or close follows the close, the buffer keeps its bound, and what was sent is what was received and then the buffer |
| `Run.NothingDropped` | cmd/edg/run.go:136-154 | when the consumer stops it has every result produced, once and in the order of its worker, and its statistics are those of a suffix |
| `Run.Unstuck` | cmd/edg/run.go:65-94 | no deadlock: until the consumer has stopped something other than more work can happen |
| `Run.DrainBounded` | cmd/edg/run.go:65-145 | once nothing more is produced every schedule is shorter than a bound computed from the state |
| `Run.CanStop` | cmd/edg/run.go:65-145 | from every reachable state the run can end without another result |
| `Sampling.GatherSub` | pkg/env/ref.go:51-83 | picking by different positions never gives a row more often than it is there |
| `Sampling.NeverTwice` | pkg/env/ref.go:124-143 | however calls on several datasets interleave, no row is handed out twice between resets |
| `Sampling.Env.RefDiff` | pkg/env/ref.go:124-143 | hands out one row that is there, keeps the rows of every dataset, and panics exactly when as many rows have been drawn, from any dataset, as this one has |
| `Sampling.Env.ResetUniqIndex` | pkg/env/env.go:215-226 | starts over with the datasets as they now lie |
| `Sampling.FisherYates` | pkg/env/ref.go:71-83 | the rows at n different positions |
| `Sampling.Rejection` | pkg/env/ref.go:53-67 | the rows at the first n different numbers drawn; it goes on drawing exactly while there are fewer |
| `Sampling.RefN` | pkg/env/ref.go:33-49 | between lo and hi rows, or all there are, none more often than it is there |
| `Distribute.RoundNearest` | pkg/env/rand.go:397 | rounding goes to the nearest number of units, and of two nearest ones to the one further from zero |
| `Distribute.SortedKeeps` | pkg/env/rand.go:387-392 | sorting keeps the numbers drawn |
| `Distribute.Drift` | pkg/env/rand.go:397-409 | rounding n numbers moves their sum by at most n/2 units |
| `Distribute.SumPartsFair` | pkg/env/rand.go:394-411 | wherever the breakpoints fall: the total exactly if and only if it is whole, otherwise within half a unit; all parts but the last at least 0 and near their gaps, the last at least -n/2 |
| `Distribute.OthersZero` | pkg/env/rand.go:394-398 | of the parts before the last none is negative, and just those of a gap below half a unit are zero |
| `Distribute.LastPositive` | pkg/env/rand.go:399-409 | when the last of several parts is positive |
| `Distribute.LastNegative` | pkg/env/rand.go:399-409 | it is negative exactly if the others come to half a unit more than the total |
| `Distribute.NegativeExactly` | pkg/env/rand.go:343-411 | for which numbers of parts and totals there are breakpoints with a negative part |
| `Distribute.MorePartsMoreNegative` | pkg/env/rand.go:343-411 | more parts make it easier; never with one or two, nor with three of a whole total, but with four of one above 1 |
| `Distribute.PositiveExactly` | pkg/env/rand.go:343-411 | all parts are positive for all breakpoints just for one part of at least half a unit |
| `Distribute.DistributeSum` | pkg/env/rand.go:349-418 | fails on exactly the invalid arguments; otherwise a number of parts in bounds that conserve the total, none negative unless the largest number of parts allows it |
| `Distribute.WeightedPartsFair` | pkg/env/rand.go:476-490 | parts of any shares conserve the total; each but the last is within half a unit of its share, the last within n/2 |
| `Distribute.BlendedPositive` | pkg/env/rand.go:466-474 | the blended sum is 0 just if the noise is 1 and every random number is 0 |
| `Distribute.FullNoise` | pkg/env/rand.go:466-474 | with full noise the random numbers alone decide |
| `Distribute.BlendedSum` | pkg/env/rand.go:466-474 | for every noise, the blended numbers sum to 1 less the noise, and the noise times the sum of the random numbers |
| `Distribute.NoNoise` | pkg/env/rand.go:466-474 | without noise the shares are in exact proportion to the weights |
| `Distribute.SplitBlended` | pkg/env/rand.go:466-490 | which draws give numbers at all, and that they then conserve the total and are near their shares |
| `Distribute.DistributeWeighted` | pkg/env/rand.go:426-497 | fails on exactly the invalid arguments, is not a number exactly if there are several weights, full noise and only zeros drawn, and otherwise conserves the total, near the shares |
| `Weighted.Owner` | pkg/env/set.go:31-40 | every draw has an item that owns it, whatever the signs of the weights |
| `Weighted.OneOwner` | pkg/env/set.go:31-40 | and only one |
| `Weighted.MakeWeightedItems` | pkg/env/set.go:23-29 | the sum of the weights |
| `Weighted.Choose` | pkg/env/set.go:31-40 | selects the owner of the draw, so the value after the loop is never returned |
| `Weighted.ListedExact` | pkg/env/env_worker.go:168-177 | the listed items are the run items that have a weight, in order, each once and with its weight |
| `Weighted.CollectEntries` | pkg/env/env_worker.go:168-177 | the listed items with the weight up to and including each |
| `Weighted.PickWeighted` | pkg/env/env_worker.go:162-191 | selects the owner of the draw among the listed items, nothing exactly if the weights sum to 0, and never the fallback |
| `Weighted.ExactOdds` | pkg/env/set.go:31-40 | exactly as many draws select an item as its weight says |
| `Weighted.BothAgree` | pkg/env/env_worker.go:183-188 | the two algorithms select the same item for one number of the generator |
| `Sequence.GapFree` | pkg/seq/manager.go:24-43 | in every interleaving no index is handed out twice, every worker's indices increase, every index below the counter is handed out or about to be, and random picks are of claimed indices |
| `Sequence.ValuesStep` | pkg/seq/manager.go:24-31 | the values begin with the start, and each is the one before plus the step, as a 64-bit number |
| `Sequence.ValuesCollide` | pkg/seq/manager.go:24-31 | two indices give one 64-bit value if and only if their distance times the step is a multiple of 2^64 |
| `Sequence.PeriodExact` | pkg/seq/manager.go:24-27 | the multiples of a step repeat modulo a power of two after that many by its greatest common divisor with the step, and not before |
| `Sequence.DivisorGreatest` | pkg/seq/manager.go:24-27 | which is greater than or equal to every common divisor |
| `Sequence.DistinctValues` | pkg/seq/manager.go:24-27 | in every interleaving, all claims being served, the values handed out all differ if and only if there are no more than 2^64 / gcd(step, 2^64) |
| `Sequence.WrappedIndex` | pkg/seq/manager.go:24-27 | that the counter itself wraps around makes no difference to the values |
| `Sequence.MonotoneValues` | pkg/seq/manager.go:24-27 | without overflow the values of each worker move in the direction of the step |

## Left out

- Inline.InlineArgs: not for mongodb, whose quoting with `\"` the scanner does not understand, nor for values that hold a `$`.
- Inline.ResolveArgs: the same.
- Inline.InlineForRun: the same.
- Prepare.TranslatePlaceholders: queries that repeat a placeholder, of which only the first one is translated, or leave out a number, where the rounds end; that numbered forms take the argument of their number is an assumption about the drivers, and so is that a numeral has no leading zeros; for queries with parameters of their own only the places of the placeholders are read.
- BatchPipeline.ExecBatch: for placeholders that stand between delimiters; a placeholder inside a string literal is filled with unquoted text, which is a different format, as is a query that holds `__values__`. Not for mongodb.
- Include.Resolver.ResolveIncludes: trees are values, so the assignment to `node.Content` in place, and the sharing of an aliased node with its anchor, are not captured (but see `IncludeTheorems.WalkedOnce`); aliases are therefore acyclic.
- IncludeTheorems.Settles: aliases that are not quiet, where the source goes on to resolve, in a further walk, what an include in an anchored tree brought along.
- IncludeTheorems.LoadConfig: the same, and decoding the tree and the order of globals, which are YAML matters.
- Sync.RowCursor.Next: errors of the database, and the text of the page query, which differs by driver.
- Verify.VerifyTable: the messages and the count of rows; keys are unique and in the order of the comparison, numbers are real (so no NaN, which would compare equal to everything).
- BatchArgs.Env.GenerateBatchArgs: evaluating the count and size expressions, the JSON format and the `__values__` format.
- Sampling.Env.RefDiff: datasets are sequences that are reassigned; that two names never share a backing array, because they are cloned when loaded (pkg/env/env_init.go:41-49), is taken for granted.
- Sampling.RefN: joining the parts, and the field read from each row; rejection is bounded by a supply of draws, so that it ends with probability 1 is not shown.
- Distribute.DistributeSum: real numbers instead of floats, so the rounding of the machine is not modelled; a part is a number of units, its decimal text is not modelled.
- Distribute.DistributeWeighted: the same, and the conversions of the arguments.
- Weighted.Choose: a total that is not positive, on which the generator panics.
- Weighted.PickWeighted: a negative total, on which it panics.
- Stats.PrintResults: print aggregates, progress and summary output, and the percentiles.
- Run.Safe: workers are seen from the channel only; what a worker does between results is arbitrary.
- Scripts.BuildUp: the wrapping of statements for Oracle, the words of the statements and the seed script.
- Scripts.BuildDeseed: what a database refuses is an assumption about PostgreSQL and Oracle, and so is that deleting is refused if, and only if, another table with rows refers to the one emptied.
- Scripts.BuildDown: dropping is always refused for a table that is referred to; for Oracle it would drop the references too.
- Drivers, connections, licensing, metrics, the command line, the REPL, file writers and schema introspection: input and output.
- The expression compiler, the faker, regular expressions and YAML parsing: libraries.
- Distributions, points, vectors, UUIDs and masks: floating point or hashing without a property of this kind.
- Sequence lookups by name and their error for an unknown one, cached references, globals and local variables: easy members.
