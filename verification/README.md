# solrload, modelled in Dafny

`solrload` uploads every `*.json` file of a directory to a Solr collection. It
runs a fixed number of parallel update queries and exits with a single status.
This project models its sequential logic and proves properties of it:

- the check of the collection link against the regular expression `reLink`;
- the post-processing of the parsed arguments: defaults, credentials from
  `SOLRUSER`/`SOLRPASSW` when they are absent, and the commit flag with its
  update-query parameters;
- the request headers built by `getHeaders`;
- the worker pool, as a transition system over every interleaving of its
  workers and every outcome of every upload;
- the aggregator loop, as a fold over the result messages;
- the exit statuses of `main`: 1, 2 and 3 before dispatch, then 0 or 20.

Files (one module each):

- `wrappers.dfy`: `Option` and `Result`.
- `strings.dfy`: first and last occurrence of a character.
- `link.dfy`: the link check `Check`. It is proved equal to the language of
  `reLink`, which is written as a grammar (`WellFormed` + `Render`).
- `args.dfy`: `parceArgs` after the command-line library has run.
- `headers.dfy`: `getHeaders`.
- `pool.dfy`: the workers, the file queue and the sent messages.
- `aggregator.dfy`: the status code, the success counter and the printed lines.
- `solrload.dfy`: `main`.

Parameters stand in for everything the program gets from outside:

- the command-line library's result (`CommandLine`, or a usage error);
- the environment (a map);
- the directory listing (a function from directory to file list or error);
- `runtime.GOOS` (a string);
- the interleaving of the workers and the outcome of each upload (a schedule
  of `Pull`/`Finish` steps).

## Model

| member | source | states |
|---|---|---|
| `Link.Check` | cmd/solrload/solrload.go:79-84 | A link the check accepts is given back whole by the parts it returns: the scheme, the authority, the collection and the trailing slash, put back together, are the link itself. |
| `Link.AuthorityOkIff` | cmd/solrload/solrload.go:24 | The authority test accepts exactly `[A-Za-z0-9-.]+:\d+`, `[a-z0-9-.]+` or `[a-z0-9-]+`. Upper case is allowed only when a port follows. |
| `Link.CheckSound` | cmd/solrload/solrload.go:24 | Every accepted link is `http` or `https`, `://`, an allowed authority, `/solr/`, a non-empty name from `\ . _ A-Z a-z 0-9 -`, and at most one `/`. The link is exactly the concatenation of these parts. |
| `Link.CheckComplete` | cmd/solrload/solrload.go:24 | Every string of that shape is accepted, and the check recovers the parts it was built from. |
| `Link.ValidLinkIff` | cmd/solrload/solrload.go:78-84 | A link passes the check if and only if it is in the language of the anchored expression. |
| `Link.RenderInjective` | cmd/solrload/solrload.go:24 | A matching link splits into scheme, authority, collection and trailing slash in only one way. |
| `Args.ParseArgs` | cmd/solrload/solrload.go:74-110 | A usage error is returned as is. A bad link gives a `WrongLink` error and no parameters. Otherwise the result holds: the link; the options or their defaults (`.`, 8, 180); each credential resolved; and `commit` true exactly when `--nocommit` is absent. |
| `Args.ErrorText` | cmd/solrload/solrload.go:82-83 | A usage error prints as the library's usage text, unchanged. A rejected link prints as `wrong http link to a solr collection "`, the link, then `"` and a newline; every message other than the usage text ends in a newline. The message for fewer than one parallel query belongs to the corrected check. |
| `Args.ResolveCredential` | cmd/solrload/solrload.go:86-93 | A non-empty credential is kept. An empty one becomes the environment variable's value, and "" when the variable is unset. The result is empty only when both are empty. |
| `Args.ResolveIdempotent` | cmd/solrload/solrload.go:86-93 | Resolving an already resolved credential changes nothing. |
| `Args.CredentialsIndependent` | cmd/solrload/solrload.go:86-89 | The resolved user does not depend on the password option or on `SOLRPASSW`. |
| `Args.PasswordIndependent` | cmd/solrload/solrload.go:91-93 | The resolved password does not depend on the user option or on `SOLRUSER`. |
| `Args.UpdateQuery` | cmd/solrload/solrload.go:187-191 | The query has the key `commit` exactly when committing, with the single value `true`, and no other key. |
| `Args.CommitParameterIff` | cmd/solrload/solrload.go:95-98 | Update requests carry `commit=true` exactly when `--nocommit` did not occur. Otherwise their parameters are empty. |
| `Args.ParseArgsChecked` | cmd/solrload/solrload.go:57-58 | The corrected check. It accepts what `ParseArgs` accepts when at least one parallel query is requested, and its result always has `nQueries >= 1`. |
| `Headers.GetHeaders` | cmd/solrload/solrload.go:140-148 | Exactly five headers: `User-Agent`, `Accept` and `Content-Type` (`application/json`), `Connection` (`keep-alive`), and `Accept-Encoding` (`gzip, deflate`). |
| `Headers.UserAgentRoundTrip` | cmd/solrload/solrload.go:142 | The `agent/version (os)` value reads back as its agent, version and OS, when the agent has no `/` and the OS has no `(`. |
| `Pool.Start` | cmd/solrload/solrload.go:173-180 | Every found file is queued and nothing has been sent. There are `nQueries` waiting workers, and none when `nQueries <= 0`. |
| `Pool.PullPreserves` | cmd/solrload/solrload.go:182-186 | Receiving moves the head of the queue to the worker, which starts uploading it and leaves the rest of the queue; on a drained queue the worker's loop ends and it has returned. No file is lost or duplicated, and no worker leaves while files remain. |
| `Pool.Apply` | cmd/solrload/solrload.go:182-206 | A step never adds or removes a worker, and a step that its worker is not in a state to take changes nothing. |
| `Pool.ApplyEffect` | cmd/solrload/solrload.go:182-206 | A step touches only its own worker. A receive takes the head of the queue and sends nothing, or ends the worker when the queue is empty. An upload that ends sends exactly its file and outcome, returns the worker to waiting, and leaves the queue alone. |
| `Pool.Run` | cmd/solrload/solrload.go:178-214 | Under any interleaving, the pool keeps its size and the messages sent so far are only ever extended. |
| `Pool.RunTakesFromFront` | cmd/solrload/solrload.go:183 | Files leave the queue only from the front, in the order they were queued: after any interleaving, the queue is a suffix of the one it started as. |
| `Pool.FinishPreserves` | cmd/solrload/solrload.go:199-205 | An upload that ends sends exactly one message, naming its file and carrying its outcome. The accounting of files is kept. |
| `Pool.RunPreserves` | cmd/solrload/solrload.go:178-214 | Under any interleaving: queued + in-flight + reported files always equal the files found; the pool size never changes; messages are only ever appended. |
| `Pool.DrainedPoolReportsEveryFile` | cmd/solrload/solrload.go:237-238 | Once every worker of a non-empty pool has returned, the reported names are a permutation of the files found. |
| `Pool.OneMessagePerFile` | cmd/solrload/solrload.go:173-214 | With at least one worker, any finished run has sent one message per file. The multiset of names equals the multiset of files, whatever the order and outcomes. |
| `Pool.FailureKeepsWorking` | cmd/solrload/solrload.go:199-206 | A failed upload leaves its worker waiting for the next file, with the same workers, queue and reported names as a success. |
| `Pool.NoDeadlock` | cmd/solrload/solrload.go:182-186 | Until every worker has returned, some worker can take a step. |
| `Pool.StepConsumesWork` | cmd/solrload/solrload.go:182-206 | Every step strictly decreases the work left, so every run ends. |
| `Aggregator.Receive` | cmd/solrload/solrload.go:228-234 | An error sets the status to 20 and leaves the counter alone. A success adds exactly 1 to the counter and leaves the status alone. Each message adds exactly one line. |
| `Aggregator.Aggregate` | cmd/solrload/solrload.go:221-236 | One line per message; the counter never exceeds the number of messages; the status is 0 or 20. |
| `Aggregator.AggregateMeaning` | cmd/solrload/solrload.go:217-235 | After the loop, the counter equals the number of successful messages. The status is 20 if some message has an error and 0 otherwise. |
| `Aggregator.AggregateReports` | cmd/solrload/solrload.go:228-234 | Line i reports message i. Errors give an error line with the message's file and error. Successes give a progress line whose counter is the number of successes up to that message, out of the number of files. |
| `Aggregator.ProgressCountsUp` | cmd/solrload/solrload.go:233-234 | The progress counters, in printing order, are 1, 2, … up to the number of successes. |
| `Aggregator.StatusSticky` | cmd/solrload/solrload.go:228-231 | Once the status is 20, later messages never reset it. |
| `Aggregator.CounterMonotone` | cmd/solrload/solrload.go:233 | The counter never decreases, and grows by at most one per message. |
| `Aggregator.SuccessesPermutation` | cmd/solrload/solrload.go:228-233 | The number of successes depends only on the multiset of messages. |
| `Aggregator.FailurePermutation` | cmd/solrload/solrload.go:228-230 | Whether some message failed depends only on the multiset of messages. |
| `Aggregator.AggregateOrderIndependent` | cmd/solrload/solrload.go:221-236 | Messages received in any order give the same final counter and status. |
| `Aggregator.StatusOkIffAllUploaded` | cmd/solrload/solrload.go:217-240 | The counter never exceeds the number of messages. The status is 0 exactly when the counter equals that number. |
| `Aggregator.SingleFailureAnywhere` | cmd/solrload/solrload.go:228-233 | One failure among successes, at any position, gives status 20 and a counter one short of the number of messages. |
| `Aggregator.ReportsMirrorMessages` | cmd/solrload/solrload.go:228-234 | The lines name the files in receiving order. The status is 20 exactly when some line is an error line, and 0 exactly when all are progress lines. |
| `Aggregator.Line` | cmd/solrload/solrload.go:229-234 | Every printed line starts with the file name it reports on, and is longer than it. |
| `Aggregator.ProgressLineRoundTrip` | cmd/solrload/solrload.go:234 | `name is uploaded (n/total)` reads back, from its last `(` and last `/`, as the file name and the two counters it was printed from, whatever the file name contains. |
| `Aggregator.Decimal` | cmd/solrload/solrload.go:234 | `%d` of a counter is a non-empty string of decimal digits with no leading zero. |
| `Aggregator.DecimalRoundTrip` | cmd/solrload/solrload.go:234 | The printed counter reads back as the number it prints. |
| `Solrload.Launch` | cmd/solrload/solrload.go:152-240 | Each early exit carries its own status and message: 1 and the argument error, 2 and the listing error, 3 and `No JSON files in` the directory, each ending in a newline and reporting on no file. After dispatch the program ends exactly when every worker has returned, prints nothing of its own, and exits 0 or 20. |
| `Solrload.MainAsWritten` | cmd/solrload/solrload.go:152-240 | The program as written: status 1 exactly when the command line is rejected or the link does not match, whatever `-n` says. A run that ends, ends with 0, 1, 2, 3 or 20. |
| `Solrload.Main` | cmd/solrload/solrload.go:152-157 | The corrected program agrees with the program as written whenever the arguments are rejected anyway or ask for at least one parallel query. Otherwise it exits with status 1 and the error for fewer than one parallel query, before listing any file. |
| `Solrload.ExitCodesAsWritten` | cmd/solrload/solrload.go:152-170 | The program as written. The checks run in order. Status 1 exactly when the arguments or link are rejected; 2 exactly when listing fails; 3 exactly when no file is found. None of these reports on a file. A finished run ends with 0, 1, 2, 3 or 20. |
| `Solrload.ExitCodes` | cmd/solrload/solrload.go:152-170 | The corrected program. The same exits, where status 1 also covers a request for fewer than one parallel query. Status 1 exactly when the arguments or link are rejected; 2 exactly when listing fails; 3 exactly when no file is found. None of these reports on a file. A finished run ends with 0, 1, 2, 3 or 20. |
| `Solrload.FinishedRunReportsEveryFile` | cmd/solrload/solrload.go:173-240 | A finished run of at least one worker prints one line per file found, naming exactly those files. The status is 20 exactly when some line is an error line, and 0 exactly when all are progress lines. |
| `Solrload.DispatchReportsEveryFile` | cmd/solrload/solrload.go:159-240 | The program as written, asked for at least one parallel query: once files are found and every worker has returned, the program prints no early-exit message and reports every file once. The status is 20 exactly when some line is an error line, and 0 exactly when all are progress lines. |
| `Solrload.StatusZeroMeansAllUploaded` | cmd/solrload/solrload.go:237-240 | The corrected program: status 0 means that files were found and every one got a progress line. |
| `Solrload.AsWrittenNoWorkersExitsZero` | cmd/solrload/solrload.go:178 | As written: with a valid link, `nQueries <= 0` and a non-empty file list, the program exits 0 without reporting or uploading anything. |
| `Solrload.AsWrittenExample` | cmd/solrload/solrload.go:178-240 | `-c http://localhost:8983/solr/films -n 0` with one JSON file found exits 0 and prints nothing. |
| `Solrload.ExampleLinkText` | cmd/solrload/solrload.go:24 | The example link is the text `http://localhost:8983/solr/films`. |
| `Solrload.CorrectedExample` | cmd/solrload/solrload.go:152-157 | With the corrected check, the same command line exits with status 1. |

## Left out

- Goroutines, channels, `sync.WaitGroup` and the `done` handshake are not modelled as such. Their effect is modelled: any interleaving of receive and upload-done steps of the workers, where the program ends once every worker has returned.
- The file channel is modelled as filled and closed before the first receive. Its buffer holds every file, so filling it never blocks. A worker that waits on the still-open channel behaves like one that has not been scheduled yet.
- `updateFromFile`, `os.Open` and `glsolr.Update` (file I/O and an HTTP call): each upload's outcome is an arbitrary value carried by the schedule, either success or an error text. A local read error and a remote failure are not told apart, as in the program.
- `getJSONFiles` and `filepath.Glob` (filesystem access): the listing is a parameter taking the source directory. The `*.json` mask is not modelled.
- The `argparse` library: its result is the input `CommandLine`, or a usage text. The help texts and the exact usage message are not modelled.
- `os.Getenv`, `os.Args`, `runtime.GOOS`, `http.Client` and the request timeout are parameters or left out. `time.Duration` overflow for huge timeouts is not modelled.
- Printing: lines are `Report` values, and their text is `Aggregator.Line`. Standard output and standard error are told apart by the constructor, not by a stream.
- Error messages go through `fmt.Errorf` as a format string. A `%` in a rejected link or in the usage text would be read as a formatting verb. The model keeps the text as is.
- Go's `int` is modelled as an unbounded integer. The counters cannot get near 64 bits.
- Go's `regexp` matches a string one code point at a time, with each invalid UTF-8 byte read as U+FFFD; the model works over Dafny characters. Every class in the expression is ASCII, so a non-ASCII code point, U+FFFD included, is rejected in both. The decoding of UTF-8 itself is not modelled.

## Findings

| source | as written | input that shows it | evidently intended | confidence | as-written member | corrected member |
|---|---|---|---|---|---|---|
| cmd/solrload/solrload.go:178 | `for i := 0; i < p.nQueries; i++` starts no worker when `-n` is 0 or negative, and `-n` is never checked. `wg.Wait()` returns at once, the aggregator sees the closed channel, and the process exits with `statusCode` still 0. | `-c http://localhost:8983/solr/films -n 0` with one JSON file: status 0, nothing uploaded, nothing printed (`Solrload.AsWrittenExample`) | reject fewer than one parallel query as an argument error, so that status 0 means every file was uploaded (`Solrload.StatusZeroMeansAllUploaded`) | medium, not executed | `Solrload.AsWrittenNoWorkersExitsZero` | `Args.ParseArgsChecked` |
