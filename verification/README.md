# Verification model of pquery

pquery replays or shuffles SQL statements against database servers. The master reads an
INI file, checks every section, forks one worker process per section and supervises the
workers; a worker splits its input file into statements and sends them from several
threads. This project models that logic in Dafny and proves properties of it:

* **The SQL splitter** (`SqlLexer`, `SqlScan`, `SqlInvariants`, `SqlConcat`, `SqlLiterals`,
  `SqlComments`, `SqlRoundTrip`, `SqlStatement`, `SqlListRoundTrip`, `SqlConservation`,
  `SqlCharacters`, `SqlFileParser`). The program scans line by line with a cursor, a mode, an accumulator, a delimiter that can change and a
  remembered dollar tag. The class `SqlFileParser.Scanner` updates these in place as the
  program does; its methods are proved against `SqlScan.ScanLines`, and that against
  `SqlScan.ScanText`, one scan of the whole text. What a scan means is then stated without
  the scanner: literals, comments, delimiters and DELIMITER lines as grammar, conservation
  of bytes, concatenation, round trip.
* **The supervisor** (`WorkerPool`, `WorkerPoolSafety`, `WorkerPoolTiming`, `WorkerDeadlines`,
  `ProcessTree`).
  The class keeps the list of workers and the wait loop; answers of fork, waitpid and the
  clock are parameters, so a theorem over all answers is one over all runs.
  `ProcessTree` runs master and children interleaved, to speak of who forks whom, and shows
  that each of them goes through the loop as the class does.
* **The workers** (`Database`, `DbThreads`, `DbWorker`). Threads are a machine whose steps
  are single accesses to the shared totals or single queries; a schedule is any
  interleaving. `DbWorker.WorkerThread` is the thread's code as it is written, proved equal
  to one thread of the machine run without interruption.
* **The configuration** (`IniGrammar`, `IniCharacters`, `IniInteger`, `IniSuffixes`, `IniReader`,
  `WorkerConfig`, `ConfigMeaning`, `ConfigRoundTrip`, `PQuery`). The greedy line scanner against a declarative grammar, the
  file as a whole against the last assignment, integers with suffixes against exact
  arithmetic, the all-or-nothing start, and a round trip from worker parameters to the text
  of a file and back. The writer (`IniReader.PrintConfig`, `ConfigRoundTrip.ConfigFile`)
  is a reference definition; pquery itself writes no configuration.

Characters are those of the C locale, one `char` a byte. Dollar quoting follows section
4.1.2.4 of the PostgreSQL documentation, except that, like the program, it does not look at
the character before the dollar sign.

Where the code and its documentation differ, the model follows the code:

* README.md:153 names the suffixes k, m and g; src/cIniReader.cpp:254-257 also takes t.
* Comment removal takes the newline too (src/cSqlFileParser.cpp:224-229), so it can join
  neighbours: `SqlListRoundTrip.NotIdempotent` shows that splitting the printed statements of
  a file need not give them back. `SqlListRoundTrip.ListRoundTrip` says exactly which lists
  of statements come back, and `SqlListRoundTrip.IdempotentExact` for which files splitting
  twice is splitting once.
* `queries-per-thread` may be up to 2^63-1 (src/cWorkerConfig.cpp:94-99), but the loop
  index has 32 bits (src/cDbWorker.cpp:138-140): `DbThreads.CompletionExact` shows that,
  with a non-empty query list, a thread can complete exactly if the limit is below 2^32.

## Model

| member | source | states |
|---|---|---|
| `SqlLexer.CommandGrammar` | src/cSqlFileParser.cpp:71-97 | a line is a DELIMITER command with value d iff it is blanks, one of the two spellings, blanks, a non-empty trimmed d, blanks |
| `SqlLexer.TagLen` | src/cSqlFileParser.cpp:112-137 | the opener found is a well-formed `$$` or `$name$`, and if none is found no prefix of the text is one |
| `SqlLexer.TagLenUnique` | src/cSqlFileParser.cpp:112-137 | any well-formed tag at the head of the text is the one found |
| `SqlLexer.LexKeepsValid` | src/cSqlFileParser.cpp:139-250 | every token moves the cursor forward, not past the text, over a newline only as its last byte; delimiter, tag and mode stay consistent |
| `SqlLexer.LexLocal` | src/cSqlFileParser.cpp:50-69 | no token depends on text behind the next newline |
| `SqlScan.LinesRefineText` | src/cSqlFileParser.cpp:252-299 | for every list of lines and every state the line loop ends in the state of one scan of the whole text |
| `SqlScan.FileRefinesText` | src/cSqlFileParser.cpp:252-299 | the statements of any file, its last line terminated or not, are those of one scan of the text |
| `SqlScan.ScanTextAppend` | src/cSqlFileParser.cpp:261-296 | a scan can be interrupted and resumed at the end of any line |
| `SqlInvariants.ScanKeepsInv` | src/cSqlFileParser.cpp:261-296 | in every reachable state: delimiter non-empty, trimmed, newline-free; dollar mode iff a well-formed tag is remembered and only if enabled; a literal's opener is pending; listed queries non-empty and trimmed |
| `SqlInvariants.LineCommentEndsWithLine` | src/cSqlFileParser.cpp:224-229 | a line comment never survives its line |
| `SqlInvariants.ReachableStates` | src/cSqlFileParser.cpp:252-301 | at the end of every file the invariants hold, no line comment is open, and the result holds only non-empty trimmed queries |
| `SqlInvariants.DollarQuotingNeedsDollar` | src/cSqlFileParser.cpp:166-175 | both settings of dollar quoting agree on every file without a dollar sign |
| `SqlConcat.Concatenation` | src/cSqlFileParser.cpp:252-299 | if file A leaves the scanner in Normal mode with delimiter ";" and only blanks pending, the queries of A+B are those of A and then those of B |
| `SqlConcat.ConcatenationExact` | src/cSqlFileParser.cpp:252-299 | that condition on A holds iff A can be put in front of every B in this way |
| `SqlConcat.BlankLinesChangeNothing` | src/cSqlFileParser.cpp:40-48 | blank lines appended to any file, its last newline supplied if missing, change none of its queries, whatever state it leaves the scanner in |
| `SqlLiterals.QuotedLiteralVerbatim` | src/cSqlFileParser.cpp:177-212 | a ' or " literal closes exactly at the first matching quote after an even run of backslashes; its bytes land contiguously in one statement and nothing is listed meanwhile |
| `SqlLiterals.UnclosedLiteralTakesAll` | src/cSqlFileParser.cpp:198-212 | without such a quote the rest of the file is in the literal |
| `SqlLiterals.BacktickLiteralVerbatim` | src/cSqlFileParser.cpp:214-222 | a back-tick name closes at the next back-tick, backslashes or not |
| `SqlLiterals.DollarLiteralVerbatim` | src/cSqlFileParser.cpp:239-250 | a dollar literal closes at the first later occurrence of its own tag, verbatim |
| `SqlLiterals.UnclosedDollarTakesAll` | src/cSqlFileParser.cpp:239-250 | without one the rest of the file is in the literal |
| `SqlComments.LineCommentDropped` | src/cSqlFileParser.cpp:50-69 | "#", "//" or "--" with a space character drops everything to the newline and the newline; the rest is read as a line start |
| `SqlComments.BlockCommentDropped` | src/cSqlFileParser.cpp:160-164 | a block comment is dropped up to the first end mark behind its opener |
| `SqlComments.UnclosedCommentTakesAll` | src/cSqlFileParser.cpp:231-237 | without an end mark the rest of the file is comment |
| `SqlComments.CommandChangesDelimiter` | src/cSqlFileParser.cpp:263-266 | a DELIMITER line at a line start in Normal mode changes the delimiter and nothing else, and is not collected |
| `SqlComments.OrdinaryByteKept` | src/cSqlFileParser.cpp:195 | a byte that starts none of these is collected and changes nothing else |
| `SqlListRoundTrip.ListRoundTrip` | src/cSqlFileParser.cpp:139-299 | a list of texts, printed one after the other, is split into exactly that list iff each text is non-empty, trimmed and, as a grammar on the text, made of closed literals and bytes that begin no delimiter, comment or DELIMITER line |
| `SqlListRoundTrip.IdempotentExact` | src/cSqlFileParser.cpp:252-299 | for every file, printing its queries and splitting again gives the same queries iff each query is of that grammar |
| `SqlListRoundTrip.MustKeepFirst` | src/cSqlFileParser.cpp:139-250 | a statement that is going to be the first query is kept whole: no early ";", no comment, no literal open at its terminator |
| `SqlListRoundTrip.HeadsStay` | src/cSqlFileParser.cpp:139-196 | as long as only terminators are dropped, no query begins with ";" |
| `SqlStatement.KeptUpToDelimiter` | src/cSqlFileParser.cpp:139-150 | whatever the delimiter, what is kept up to it is listed as one query with what was pending, and the next statement begins |
| `SqlStatement.StatementListed` | src/cSqlFileParser.cpp:139-150 | a text of that grammar is listed by the ";" behind it |
| `SqlStatement.KeptIsStatement` | src/cSqlFileParser.cpp:139-250 | whatever the scanner keeps whole from Normal mode to Normal mode is of that grammar |
| `SqlStatement.StatementIsKept` | src/cSqlFileParser.cpp:139-250 | whatever is of that grammar the scanner keeps whole, ending in Normal mode |
| `SqlListRoundTrip.ListRoundTripKept` | src/cSqlFileParser.cpp:139-299 | equivalently, iff each text is non-empty, trimmed and every one of its tokens is kept with no literal left open |
| `SqlListRoundTrip.QueriesStay` | src/cSqlFileParser.cpp:40-48 | queries once listed stay, whatever follows |
| `SqlListRoundTrip.FirstIsLong` | src/cSqlFileParser.cpp:139-298 | the next query listed is at least as long as what of it is already pending |
| `SqlRoundTrip.JoinedByComment` | src/cSqlFileParser.cpp:224-229 | an input where a removed comment joins its neighbours into a comment opener |
| `SqlListRoundTrip.NotIdempotent` | src/cSqlFileParser.cpp:224-229 | a file that is split differently after printing its own statements; `SqlListRoundTrip.IdempotentExact` says which files are |
| `SqlConservation.Conservation` | src/cSqlFileParser.cpp:139-298 | of a file with its last newline supplied, as the scanner reads it: every byte is exactly one of kept, delimiter, comment, DELIMITER line; the queries are the kept bytes cut at the delimiters and trimmed; the untrimmed statements joined are a subsequence of those bytes |
| `SqlCharacters.TrimCharacters` | src/cSqlFileParser.cpp:19-27 | trimming removes two ends made of space, tab, CR and LF, and leaves neither end with one of them |
| `SqlCharacters.QueryCharacters` | src/cSqlFileParser.cpp:40-48 | no query of any file is empty or begins or ends with space, tab, CR or LF |
| `SqlCharacters.DashCharacters` | src/cSqlFileParser.cpp:59-62 | "--" opens a comment exactly before space, tab, CR and LF |
| `SqlCharacters.TagCharacters` | src/cSqlFileParser.cpp:114-137 | "$name$" opens a dollar quote exactly for names of letters, digits and "_" not beginning with a digit |
| `SqlFileParser.IsDelimiterCommand` | src/cSqlFileParser.cpp:71-97 | finds the command and value of the specification |
| `SqlFileParser.DollarQuoteOpenLength` | src/cSqlFileParser.cpp:114-137 | finds the opener of the specification at the cursor |
| `SqlFileParser.Scanner.PushStatement` | src/cSqlFileParser.cpp:40-48 | lists the trimmed statement unless empty and clears it |
| `SqlFileParser.Scanner.ConsumeNormalChar` | src/cSqlFileParser.cpp:139-196 | cursor and state become those of the next token |
| `SqlFileParser.Scanner.ConsumeQuotedChar` | src/cSqlFileParser.cpp:198-212 | cursor and state become those of the next token |
| `SqlFileParser.Scanner.ConsumeBacktickChar` | src/cSqlFileParser.cpp:214-222 | cursor and state become those of the next token |
| `SqlFileParser.Scanner.ConsumeLineCommentChar` | src/cSqlFileParser.cpp:224-229 | cursor and state become those of the next token |
| `SqlFileParser.Scanner.ConsumeBlockCommentChar` | src/cSqlFileParser.cpp:231-237 | cursor and state become those of the next token |
| `SqlFileParser.Scanner.ConsumeDollarQuoteChar` | src/cSqlFileParser.cpp:239-250 | cursor and state become those of the next token |
| `SqlFileParser.Scanner.ConsumeText` | src/cSqlFileParser.cpp:268-295 | the loop over a line lands exactly on its end, in the state of the line's scan |
| `SqlFileParser.Scanner.ConsumeLine` | src/cSqlFileParser.cpp:261-296 | one line does what the line step of the specification does |
| `SqlFileParser.SplitStatements` | src/cSqlFileParser.cpp:252-300 | appends exactly the statements of the lines to the list, whatever it held |
| `SqlFileParser.SqlFileParser.LoadQueriesFromFile` | src/cSqlFileParser.cpp:306-321 | succeeds iff there is a list and the file opens; then appends the file's statements, else leaves the list alone |
| `WorkerPool.WorkerPool.SpawnWorker` | src/cWorkerPool.cpp:87-158 | the master tracks the child with its deadline; the child runs this section's tests only, and none if its database is not compiled in; a failed fork changes nothing |
| `WorkerPool.WorkerPool.CheckTimeouts` | src/cWorkerPool.cpp:192-209 | one pass over the workers sends the signals and sets the fields of the state machine |
| `WorkerPool.WorkerPool.WaitForWorkers` | src/cWorkerPool.cpp:160-215 | the wait loop computes the run of the state machine for every sequence of answers |
| `WorkerPool.WorkerPool.RunAll` | src/cWorkerPool.cpp:217-235 | forks in order; the first fork that does not return in the master ends it there, else it waits |
| `WorkerPoolSafety.SignalSafety` | src/cWorkerPool.cpp:167-209 | in every run signals go only to tracked, unreaped workers with a timeout; SIGTERM comes first and once; SIGKILL only more than 10 s after it; nobody is reaped twice; tracked pids stay distinct and are exactly the unreaped |
| `WorkerPoolSafety.VerdictExact` | src/cWorkerPool.cpp:164-214 | the verdict is true iff no tracked child was reaped with a status other than 0 and no SIGTERM was sent |
| `WorkerPoolSafety.WaitsForAll` | src/cWorkerPool.cpp:167-190 | if the system reports "no children" only when there are none, the loop ends exactly when all children are reaped, with none tracked |
| `WorkerPoolTiming.BoundedEscalation` | src/cWorkerPool.cpp:192-209 | with polls at most G apart SIGTERM falls in (deadline, deadline+G], and for a worker still unreaped SIGTERM has come once the deadline was seen to pass, SIGKILL in (T+10 s, T+10 s+G] once that was |
| `WorkerDeadlines.NeverTooEarly` | src/cWorkerPool.cpp:105-114 | in every run of RunAll a SIGTERM to worker i comes more than its section's timeout times 10^9 ns after its fork, only if there is a timeout; a SIGKILL comes more than 10^10 ns after a SIGTERM |
| `WorkerDeadlines.NeverTooLate` | src/cWorkerPool.cpp:192-209 | with looks at the clock at most G apart a SIGTERM comes at most G later than that; an unreaped worker has got it once the clock was seen past it, and a SIGKILL at most G after ten seconds more |
| `ProcessTree.TreeShape` | src/cWorkerPool.cpp:217-235 | in every interleaving every process but the master is a child of the master; the i-th runs section i only, forks nothing and waits for nobody; the master waits only after all forks |
| `ProcessTree.EachEndsAsRunAll` | src/cWorkerPool.cpp:87-235 | in every interleaving every process that is done, master or child, has returned what RunAll returns for its own answers of fork and waitpid, and leaves the pool RunAll leaves |
| `Database.Database.PerformQuery` | src/cDatabase.cpp:23-42 | the three counters after a query that succeeds, fails or throws |
| `Database.TrailingRun` | src/cDatabase.cpp:33-38 | the trailing run is the longest all-failed suffix of the outcomes |
| `Database.CountersExact` | src/cDatabase.cpp:33-40 | the counters are the outcomes, the failures and the trailing run of failures; the last never exceeds 250, so 16 bits hold it |
| `DbThreads.TotalsExact` | src/cDbWorker.cpp:78-81 | in every interleaving, after every step, failed total <= performed total; after the join both are the sums over the threads that ran to the end or gave up; the failure flag is set iff a thread threw |
| `DbThreads.RatioInRange` | src/cDbWorker.cpp:50-55 | the reported success ratio is between 0 and 100 |
| `DbThreads.RatioExact` | src/cDbWorker.cpp:50-55 | after the join the ratio is a hundred times the successful queries over all counted ones |
| `DbThreads.TotalsFit` | src/cDbWorker.cpp:78-81 | with limits below 2^32 the total stays below 2^48 |
| `DbThreads.AbortRule` | src/cDbWorker.cpp:138-160 | in every reachable state a thread that gave up did so at the first point where its last 250 outcomes all failed; one that completed performed exactly its limit and met no such point; the 16-bit counter is the current run of failures and at most 250 |
| `DbThreads.ThreadsAreIndependent` | src/cDbWorker.cpp:83-222 | in every interleaving the state of a thread is decided by what that thread itself is told |
| `DbThreads.AnswersDecide` | src/cDbWorker.cpp:138-160 | in every interleaving that gives it its steps, a connected thread answered without an exception ends, having performed the smaller of its limit and the first point whose last 250 answers failed |
| `DbWorker.AloneAsTold` | src/cDbWorker.cpp:138-202 | the thread's code, connected and answered without an exception, ends at that point and adds exactly the queries up to it and their failures to the totals |
| `DbThreads.Replay` | src/cDbWorker.cpp:138-146 | without shuffling the numbers sent are 0, 1, 2, ... in range, each once; the list is cut short only by 250 failures, a failed connection or an exception |
| `DbThreads.SentIndexesTheList` | src/cDbWorker.cpp:138-146 | shuffled or replaying, in every interleaving every number sent indexes the query list, and none is sent for an empty list |
| `DbThreads.PicksDecide` | src/cDbWorker.cpp:138-146 | in every interleaving the j-th query a thread sends is the one its j-th random number picks when shuffling, and the j-th of the list otherwise |
| `DbThreads.CompletedCounts` | src/cDbWorker.cpp:140-203 | a thread that completed has sent and counted exactly as many queries as its limit |
| `DbThreads.CompletionExact` | src/cDbWorker.cpp:138-140 | for every number of threads each thread can complete in some run iff the query list is not empty and the limit is below 2^32 |
| `DbWorker.AloneIsASchedule` | src/cDbWorker.cpp:211-222 | a thread run without interruption is one of the schedules |
| `DbWorker.DbWorker.AdjustRuntimeParams` | src/cDbWorker.cpp:27-39 | without shuffling one thread goes once through the list; nothing else changes |
| `DbWorker.DbWorker.CalculateQueries` | src/cDbWorker.cpp:78-81 | adds both counters to the totals |
| `DbWorker.DbWorker.WorkerThread` | src/cDbWorker.cpp:83-209 | for all answers of the server the code sends, counts and ends as the thread of the machine does |
| `DbWorker.DbWorker.ExecuteTests` | src/cDbWorker.cpp:224-313 | loads the file only after a working test connection and within the size limit, then runs as many threads as the section says when shuffling and one otherwise; each that completes has performed as many queries as the section says when shuffling and the whole list otherwise; once all have ended the totals are the sums over them and it reports whether none threw; else fails with nothing run |
| `DbWorker.ReplaySendsTheFile` | src/cDbWorker.cpp:27-39 | without shuffling what is sent is a prefix of the file's statements in order, each once, proper only after an abort, a failed connection or an exception |
| `IniGrammar.GrammarExact` | src/cIniReader.cpp:50-99 | a line is accepted iff it is space, key, space, "=", space, words with single spaces, space; the value is that of every parse and the key the longest of any |
| `IniGrammar.SectionExact` | src/cIniReader.cpp:36-48 | a section line is space and a bracketed non-empty name without "]", with nothing behind it |
| `IniGrammar.PairRoundTrip` | src/cIniReader.cpp:50-99 | a printed pair is read back iff key and value are of the grammar and the line reads as no comment and no section |
| `IniGrammar.SectionRoundTrip` | src/cIniReader.cpp:36-48 | a printed section line is read back iff the name is non-empty without "]" |
| `IniCharacters.FormCharacters` | src/cIniReader.cpp:50-99 | the grammar of settings in characters: keys go on to a space, tab or "="; space is the six characters of the C library |
| `IniCharacters.BlankExact` | src/cIniReader.cpp:12-23 | a line is blank iff it has nothing but those six |
| `IniCharacters.CommentExact` | src/cIniReader.cpp:25-34 | a line is a comment iff it is such space, then ";", "#" or "--", then anything |
| `IniReader.TryParseKeyValue` | src/cIniReader.cpp:50-99 | computes the scanner's specification, in at most 2n loop rounds on n characters |
| `IniReader.TryParseSection` | src/cIniReader.cpp:36-48 | computes the section name of the specification |
| `IniReader.INIReader.constructor` | src/cIniReader.cpp:102-148 | the line loop leaves sections, map and error as the specification reads the lines; error -1 and nothing read if the file does not open |
| `IniReader.MalformedLinesOnlyReported` | src/cIniReader.cpp:116-146 | sections and map equal those of the file without its malformed lines, which has no error |
| `IniReader.ErrorIsFirstBad` | src/cIniReader.cpp:142-145 | the error is the number of the first malformed line, 0 iff there is none |
| `IniReader.CurrentExact` | src/cIniReader.cpp:127-134 | the current section is that of the nearest header above, the empty one if there is none |
| `IniReader.LookupExact` | src/cIniReader.cpp:135-141 | a lookup finds the last assignment to this key in this section and nothing iff there is none; values found are never empty |
| `IniReader.FileRoundTrip` | src/cIniReader.cpp:102-148 | a well-formed configuration printed to a file is read back: no error, its sections in order, for every key its last value |
| `IniReader.INIReader.Get` | src/cIniReader.cpp:188-201 | the stored value, the default if there is none or it is empty |
| `IniReader.INIReader.GetInteger` | src/cIniReader.cpp:217-272 | the default if unset, else what the text is worth |
| `IniInteger.ReadNumber` | src/cIniReader.cpp:229-232 | optional sign, maximal digit run, failure without digits or out of 64 bits |
| `IniInteger.ReadInteger` | src/cIniReader.cpp:224-271 | the number, suffix, guard and product of the specification, which `IniSuffixes.SuffixExact` gives in numbers |
| `IniInteger.GuardExact` | src/cIniReader.cpp:263-269 | the truncating-division guard passes iff the true product fits int64, for every positive multiplier |
| `IniInteger.IntegerExact` | src/cIniReader.cpp:224-271 | however a text divides into sign, digits, gap and rest, those parts decide the result; without them it is invalid |
| `IniInteger.IntegerRoundTrip` | src/cIniReader.cpp:224-271 | every printed number with any text behind it is worth its number and that text's first character |
| `IniSuffixes.SuffixExact` | src/cIniReader.cpp:236-271 | for every int64 number k/K, m/M, g/G and t/T multiply by 1024, 1048576, 1073741824 and 1099511627776, or overflow exactly outside [-2^63, 2^63); NUL is no suffix; every other character that is no space and no digit is invalid |
| `IniSuffixes.PlainExact` | src/cIniReader.cpp:229-238 | a printed number alone is read as it is, and is invalid exactly outside int64 |
| `IniSuffixes.DecimalNotation` | src/cIniReader.cpp:229-232 | the notation printed and read is the decimal one, digit by digit |
| `WorkerConfig.WorkerConfig.CheckIntRange` | src/cWorkerConfig.cpp:25-35 | true iff the value is in the range |
| `WorkerConfig.WorkerConfig.SetupWorkerParams` | src/cWorkerConfig.cpp:37-170 | succeeds iff every setting of the section is acceptable; the parameters are then the settings as read, no narrowing cast changing one |
| `WorkerConfig.WorkerConfig.BuildAllWorkerParams` | src/cWorkerConfig.cpp:172-210 | appends the selected and valid sections and succeeds iff every selected one is valid; `ConfigMeaning.RunExact` says which are selected |
| `WorkerConfig.ChosenExact` | src/cWorkerConfig.cpp:181-198 | if every selected section is valid the list is exactly the selected sections, in file order |
| `WorkerConfig.ChosenByName` | src/cWorkerConfig.cpp:51-69 | every entry is the settings its section's name stands for, and its database is compiled in |
| `ConfigMeaning.RunExact` | src/cWorkerConfig.cpp:181-198 | from the lines of the file: if all are valid the list is, in file order, exactly the sections not named "master" in any letter case whose last "run" is "true", "yes", "on" or "1" in some letter case |
| `ConfigMeaning.OnlyRunIsChosen` | src/cWorkerConfig.cpp:183-191 | valid or not, no other section is ever in the list |
| `ConfigMeaning.NeverByDefault` | src/cWorkerConfig.cpp:189-191 | a section in which no line assigns to "run" is never in the list |
| `ConfigMeaning.DefaultsExact` | src/cWorkerConfig.cpp:49-130 | a section that sets nothing is valid iff MySQL is compiled in, with port 3306, 10 threads, 10000 queries, 1 GiB, no timeout, 60 s to connect, no shuffling |
| `ConfigMeaning.PgsqlDefaults` | src/cWorkerConfig.cpp:79-84 | a PostgreSQL section has port 5432 and the same other defaults |
| `ConfigMeaning.RangesExact` | src/cWorkerConfig.cpp:71-120 | a number set is accepted iff it is in 1..65535 (port, threads), 0..2^63-1 (queries, list size) or 0..2^32-1 (both timeouts), and is then taken over as it is |
| `ConfigMeaning.DbTypeExact` | src/cIniReader.cpp:170-186 | no "dbtype" is MySQL; mysql and mariadb, and pgsql, postgres and postgresql in any letter case name the databases, every other word none |
| `ConfigMeaning.InfileTypeExact` | src/cIniReader.cpp:150-168 | the input is SQL iff nothing or "sql" in some letter case is set |
| `ConfigMeaning.ShuffleExact` | src/cWorkerConfig.cpp:126-127 | shuffling is on iff the setting is "true", "yes", "on" or "1" in some letter case |
| `WorkerConfig.DeadlineFits` | src/cWorkerPool.cpp:108-112 | every accepted timeout keeps now + timeout within int64 nanoseconds iff the clock is at most 2^63-1-(2^32-1)*10^9 |
| `ConfigRoundTrip.WorkersRoundTrip` | src/cWorkerConfig.cpp:37-210 | a list of workers with acceptable parameters, written as a file, is read, validated and built as exactly the same list iff workers of one name are alike and the database of each is compiled in |
| `PQuery.Run` | src/cPQuery.cpp:43-97 | no pool is made and nothing is forked unless the file parses without error and every selected section is valid; then the pool runs exactly these sections, and what is returned and left in the pool is safe in the sense of `PQuery.MasterIsSafe` |
| `PQuery.StartableExact` | src/cPQuery.cpp:43-93 | workers are started iff the file and the log open, no line is malformed and every section the file wants run is valid |
| `PQuery.MasterIsSafe` | src/cPQuery.cpp:79-97 | for all answers of fork, waitpid and the clock: signal safety holds, only workers of sections with a timeout are signalled, success of the master means no failed and no terminated child, a failed fork fails, a child passes on the tests of its own section |

## Left out

- The MySQL and PostgreSQL clients: connecting and sending a query are answers given from outside.
- fork, waitpid, kill, sleep and the clock as system calls: they are answers given from outside, and any negative waitpid result ends the wait loop.
- Logging, log files, command line and version text: no effect on what is modelled; that the log file opens is one flag.
- Opening files and looking up their size: a file is its text, or none if it cannot be opened.
- WorkerConfig.WorkerConfig.SetupWorkerParams: the string settings (address, user, password, socket, database, infile, logdir) and the verbosity and logging switches are single reads that nothing else depends on, and are not filled.
- DbThreads.PicksDecide: the random number is modelled as any number modulo the list size, which stands for the source's distribution over the list only for sizes up to 2^31, what a C++ `int` holds (src/cDbWorker.cpp:99-101); for larger lists the source's behaviour is undefined, and the shuffled half of the statement is one about the model only. The same goes for DbThreads.SentIndexesTheList.
- Parsers of the general log and the binary log: they always fail.
- Exceptions thrown after a query was counted: the thread's counters are then dropped as for one thrown while it is sent, so they are not told apart.
- The line number of the reader is unbounded; the source's `int` wraps after 2^31 lines.
- WorkerPoolSafety.WaitsForAll: it is about runs in which all forks succeed; after a failed fork the source returns without waiting, as WorkerPool.WorkerPool.RunAll states.
- ProcessTree.TreeShape: a new child's pid is one not in use; an answer naming a pid in use counts as a failed fork. Waiting is one step, taken with answers that end the wait.
- DbThreads.TotalsFit: totals are unbounded numbers; for limits of 2^32 and more, which never complete, the 64-bit wrap after 2^64 queries is not modelled.
- DbThreads.Replay: for lists of fewer than 2^32 statements, beyond which the 32-bit index starts over.
- DbWorker.DbWorker.ExecuteTests: threads run as the interleaving machine that WorkerThread is proved equal to for one thread, not as threads of Dafny.
- IniInteger.ReadInteger: what follows the one-letter suffix is ignored, as the source does.
