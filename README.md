# LogSight core, modelled in Dafny

LogSight is a log-collection and monitoring server written in Go. This project models
four parts of it and proves properties of the model:

- **Build information** (`assets/assets.go`). Two parsers read the embedded `buildinfo.txt`.
  `BuildVersion` takes the lazy regular-expression match `BuildVersion=(.+?)\n`, or
  falls back to a default. `BuildInfoMap` collects every match of `(.+?)=(.+?)\n`
  into a map. Both regular expressions are modelled literally: an anchored matcher, plus
  the leftmost scan of Go's RE2. The scan is then proved to agree with a plain line rule.
- **The application object** (`app/app.go` and the receiver methods in `app/jobs.go`):
  - the `sys_config` settings table, read and written by `(type, name)`;
  - the theme default and the version sync;
  - rendering of the backup script and the temporary-file discipline of `BackupDatabase`;
  - the time-zone and database-type decisions of `Init`;
  - the three registrations of `initJob`;
  - the shutdown order of `Release`.
- **Jobs** (`app/jobs.go`):
  - the cron registration table;
  - the exact rows the system and process monitors send to the time-series store, as a
    function of which sensor reads succeed;
  - the one-year retention cut on the operation log.
- **Web-server decisions** (`webserver/server.go`):
  - the JWT skip predicate and the session gate;
  - the key-selection callback of `ParseJwtToken`;
  - the reader dispatch and id-filling loop of `ImportData`;
  - the sheet layout of `ExportData`.

Modules and files:

| file | module | contents |
|---|---|---|
| `wrappers.dfy` | `Wrappers` | `Option`, `Result` |
| `strings.dfy` | `Strings` | `strings.HasPrefix/HasSuffix/ReplaceAll` over `seq<char>` |
| `strconv.dfy` | `Strconv` | `strconv.FormatInt` base 10, with a reference parser |
| `assets.dfy` | `Assets` | `BuildVersion`, `BuildInfoMap`, line rule, round trip |
| `backup_script.dfy` | `BackupScript` | the five-step `ReplaceAll` chain and one-pass substitution |
| `process.dfy` | `Process` | `Host`: the global logger, `time.Local`, files, shell, one ordered effect trail |
| `jobs.dfy` | `Jobs` | `Scheduler`, `Sink` (time-series store), monitor rows, retention |
| `app.dfy` | `App` | `Database` (gorm handle), `Application` |
| `server.dfy` | `Webserver` | gates, JWT key selection, import, export |

Some things outside the program are inputs to the model rather than behaviour in it:

- The store's and the shell's answers, the sensor readings, the cron parser's verdict on a
  cadence, `common.IsEmptyOrNA` and `common.UUIDint64` are parameters.
- The clock is the `now` parameter.
- `time.LoadLocation` is membership in the host's set of known zone names.
- The process-wide logger, `time.Local` and the file system belong to one `Host` object.
  Its `trail` records every log line, file write, shell run, removal and shutdown step,
  in order.

Notes on what verification showed:

- **Placeholders by juxtaposition.** A natural reading is that the rendered backup script
  holds no placeholder when no configuration value contains one. That reading is false in
  general. `BackupScript.StraddlingTemplate` shows it: with host `db`, `{{dbhost}host}`
  renders to `{dbhost}`, because the first step writes a placeholder that no later step
  replaces. The same can happen from the value side: `BackupScript.StraddlingValue` shows
  that the template `{dbpwd}st}`, whose only `{` opens a placeholder, renders to
  `x{dbhost}` with the password `x{dbho`, which holds no placeholder. What holds is proved as `BackupScript.RenderScriptComplete`. When every `{` of
  the template opens one of the five placeholders, and no value contains `{`, the chain
  equals a one-pass substitution and no placeholder remains. The shipped template is a
  fixed asset, so this is a property of the rendering rule and not a defect.
- **Unknown time zone in `initJob`.** `initJob` ignores the error of `time.LoadLocation`
  (app/jobs.go:22). For an unknown zone it therefore hands the scheduler a nil location
  (`Scheduler.location == None` here). What robfig/cron then does with it is library
  behaviour and is not part of this model.
- **Global application object.** The backup job calls `BackupDatabase` on the global
  `app` rather than on the receiver (app/jobs.go:33). The model uses the receiver,
  since `InitGlobalApplication` makes the two the same object (app/app.go:46-49).

## Model

| member | source | states |
|---|---|---|
| Assets.BuildVersion | assets/assets.go:28-39 | the result is never empty and holds no `\n` |
| Assets.FindVersionSound | assets/assets.go:29-36 | the scan returns the value of the leftmost position where `BuildVersion=` is followed by at least one non-newline rune and a `\n`, or fails exactly when there is no such position; the match may start mid-line |
| Assets.VersionMatchMeaning | assets/assets.go:29 | the anchored lazy match succeeds with `v` iff the text is `BuildVersion=` + `v` + `\n` + rest with `v` non-empty and newline-free |
| Assets.BuildVersionFinds | assets/assets.go:33-37 | when a version match occurs at `i` and none before it, BuildVersion returns that match's value |
| Assets.BuildVersionDefault | assets/assets.go:26-38 | with no match, BuildVersion is exactly "Latest Build 2024" |
| Assets.BuildInfoMap | assets/assets.go:41-55 | the `for range` loop leaves exactly the map InfoMap describes: nil without matches, else the fold of all matches |
| Assets.ParseLineMeaning | assets/assets.go:42 | a line yields `(k, v)` iff it is `k=v` with `k` non-empty and free of `=` after its first rune, and `v` non-empty: the shortest key, the rest of the line as value (which may contain `=`) |
| Assets.ParseLineNone | assets/assets.go:42 | a line with no `=` after position 0, or with an empty value, yields no entry of any shape |
| Assets.FindAllIsLineRule | assets/assets.go:42-46 | the leftmost FindAll scan returns exactly the entries of the `\n`-terminated lines, line by line, in order |
| Assets.UnterminatedTailIgnored | assets/assets.go:42 | a final line without `\n` adds no entry, whatever it holds |
| Assets.InfoMapNone | assets/assets.go:46-54 | BuildInfoMap returns nil iff no terminated line holds an entry |
| Assets.MapOfKeys | assets/assets.go:49-51 | a key is in the map iff some match carries it |
| Assets.MapOfLastWins | assets/assets.go:49-51 | when a key repeats, the value is that of its last match |
| Assets.SerializeParses | assets/assets.go:42-46 | writing well-formed entries as `k=v\n` lines and scanning them returns the same entries in order |
| Assets.MapOfListing | assets/assets.go:48-51 | folding any listing of a map, each key once, rebuilds the map |
| Assets.BuildInfoRoundTrip | assets/assets.go:41-55 | for a non-empty map with non-empty keys free of `=` and `\n` and non-empty newline-free values, serialising it as `k=v\n` lines in any order that lists each key once, and parsing the text, returns the map |
| BackupScript.Bindings | app/app.go:167-171 | the substitutions are the five placeholders in the order `{dbhost}`, `{dbport}`, `{dbuser}`, `{dbpwd}`, `{dbname}` |
| Strconv.FormatInt | app/app.go:168 | `strconv.FormatInt(port, 10)` is never empty and holds only digits, after a leading `-` for a negative port |
| Strconv.FormatIntRoundTrip | app/app.go:168 | the base-10 rendering of the port parses back to the port, sign included |
| Strconv.FormatIntInjective | app/app.go:168 | different ports render differently |
| BackupScript.StepIsSubst | app/app.go:167-171 | one ReplaceAll of a placeholder by a `{`-free value on a braced text keeps the text braced for the remaining placeholders and commutes with the one-pass substitution |
| BackupScript.ChainIsSubst | app/app.go:166-171 | the whole chain (`Chain`, the five ReplaceAll steps that `RenderScript` applies) equals the one-pass substitution and leaves no `{` |
| BackupScript.RenderScriptComplete | app/app.go:166-171 | for a template whose every `{` opens a placeholder, and values without `{`, the script is the one-pass substitution and contains none of the five placeholders |
| BackupScript.StraddlingTemplate | app/app.go:167 | counterexample: with host `db`, the template `{{dbhost}host}` renders to a text that still contains `{dbhost}` |
| BackupScript.StraddlingValue | app/app.go:167-170 | counterexample: a password with no placeholder in it, `x{dbho`, turns the template `{dbpwd}st}` into `x{dbhost}`, whatever the other values |
| Strings.ReplaceAllAbsent | app/app.go:167-171 | `Strings.ReplaceAll`, the model of `strings.ReplaceAll`, leaves a text without the pattern unchanged |
| App.RenderIsChain | app/app.go:166-171 | the rendering is the five literal ReplaceAll calls in source order |
| App.Lookup | app/app.go:135-139 | a missing `(type, name)` row reads as "" |
| App.Update | app/app.go:157 | an UPDATE changes only the addressed row, creates no row, and leaves a missing row missing |
| App.ThemeOf | app/app.go:146-154 | the theme is never empty: the stored value when non-empty, "light" otherwise |
| App.ThemeStable | app/app.go:146-158 | with `ThemeSettled` the table GetSystemTheme leaves: after GetSystemTheme the stored theme equals the answer where the row exists; a missing row stays missing; a second call answers the same and writes nothing new |
| App.VersionSyncMeaning | app/app.go:185-191 | with `VersionSynced` the table checkAppVersion leaves: after the check a stored version equals the build version; no other row changes; no row is created; a second check is a no-op |
| App.Database.Exec | app/app.go:157 | an UPDATE on sys_config leaves the table as `Update` describes, records the statement, and leaves the operation log alone |
| App.Database.DeleteOlderThan | app/jobs.go:40-42 | the DELETE leaves exactly `Prune` of the operation log at the cutoff, and sys_config alone |
| App.Application.GetSettingsStringValue | app/app.go:135-139 | the stored value for `(stype, name)`, or "" without a row |
| App.Application.GetSystemSettingsStringValue | app/app.go:160-162 | the stored value of the setting `(system, name)`, or "" without a row |
| App.Application.SetSystemTheme | app/app.go:156-158 | one UPDATE of `system/SystemTheme`; the table changes only there and only if the row exists |
| App.Application.GetSystemTheme | app/app.go:146-154 | returns ThemeOf the table, never empty; writes "light" back exactly when the stored theme is empty |
| App.Application.CheckAppVersion | app/app.go:185-191 | issues the UPDATE only when the build version differs from the stored one; afterwards the table is VersionSynced |
| App.Application.BackupDatabase | app/app.go:165-182 | the rendered script is written, run by the shell, its output logged, and the file removed, in that order; the script path is absent afterwards on both paths; the error is the shell's |
| App.Application.BackupJob | app/jobs.go:32-37 | a failed backup adds one error log line with the shell's error |
| App.Application.MonitorJob | app/jobs.go:26-29 | the monitor job issues the system monitor's inserts stamped with its clock, then the process monitor's stamped with its own; the store gains the accepted rows of both and each refused insert logs one error |
| App.Application.RetentionJob | app/jobs.go:39-43 | the operation log becomes Prune at now − 365 × 24 h |
| App.Application.InitJob | app/jobs.go:21-50 | a fresh running scheduler in the configured zone (none if it fails to load) with the registrations of InitRegistrations, numbered from 1; a log line, `LastErrorLog`, only for the last registration's error |
| App.OnlyLastErrorLogged | app/jobs.go:25-47 | the log of initJob depends only on the third registration's outcome: errors of the first two go unreported |
| App.InitTable | app/jobs.go:26-43 | the three AddFunc calls build exactly the table InitRegistrations describes |
| App.Application.Init | app/app.go:63-99 | a loadable zone becomes time.Local; an unknown one is logged and leaves time.Local untouched; a database type other than "postgres" panics with "not support database type" before the jobs are set up; "postgres" opens the database and runs initJob |
| App.Application.Release | app/app.go:193-196 | the scheduler stops before the logger is released |
| App.Application.constructor | app/app.go:51-53 | a new application holds only its configuration |
| Jobs.Scheduler.AddFunc | app/jobs.go:26-43 | a spec that parses is appended under the next id; one that does not returns its error with id 0 and leaves the table as it was |
| Jobs.Scheduler.Start | app/jobs.go:49 | the scheduler runs, its table unchanged |
| Jobs.Scheduler.Stop | app/app.go:194 | the scheduler stops, its table unchanged, and the stop is recorded |
| Jobs.InitRegistrations | app/jobs.go:26-43 | the table `Register` builds from the three specs is numbered 1, 2, 3, … in order |
| Jobs.RegisterNumbered | app/jobs.go:26-43 | each accepted spec takes the next id, so a numbered table stays numbered |
| Jobs.InitRegistersThree | app/jobs.go:26-43 | with both cadences accepted, exactly the monitor job every 30 s, then the backup and the retention job daily, ids 1 to 3 |
| Jobs.RegisterKeepsParsed | app/jobs.go:26-43 | every registration comes from a spec that parsed; no more registrations than specs |
| Jobs.Mebibytes | app/jobs.go:137 | RSS / 1024 / 1024 is the whole number of MiB: floor(rss / 2^20) |
| Jobs.SystemMonitorShape | app/jobs.go:53-98 | the batches of `SystemMonitorBatches`: always two one-row batches, `system_cpuuse` then `system_memuse`, with the one timestamp taken on entry; a failed or empty CPU read and a failed memory read give 0 |
| Jobs.ProcessMonitorShape | app/jobs.go:101-151 | the batches of `ProcessMonitorBatches`: no row when the process is not found; a CPUPercent failure still writes `app_cpuuse` with 0; a MemoryInfo failure leaves exactly that row; otherwise `app_memuse` follows with floor MiB |
| Jobs.SystemMonitorTask | app/jobs.go:53-98 | both inserts are issued whatever the store answers; accepted batches reach the store; each refused insert logs one error |
| Jobs.ProcessMonitorTask | app/jobs.go:101-151 | the inserts issued are exactly ProcessMonitorBatches; a refused first insert does not stop the second |
| Jobs.ProcessFound | app/jobs.go:115-150 | once the process is found: the CPU insert, then the memory insert only when MemoryInfo answers; accepted batches reach the store; each refused insert logs one error |
| Jobs.Insert | app/jobs.go:67-78 | one InsertRows call: the batch is offered, kept only when accepted, and a refusal logs `add timeseries data error:` followed by the error |
| Jobs.Sink.InsertRows | app/jobs.go:67-75 | the batch is offered to the store and kept only when the store accepts it |
| Jobs.SystemRoundsBound | app/jobs.go:53-98 | over N rounds the system monitor sends exactly 2N points, all named `system_cpuuse` or `system_memuse` |
| Jobs.ProcessRoundsBound | app/jobs.go:101-151 | over N rounds the process monitor sends at most 2N points, all named `app_cpuuse` or `app_memuse` |
| Jobs.SystemRoundsOrdered | app/jobs.go:60-97 | when the system monitor's own clock (taken at line 60) does not go back, its points come in timestamp order, none before its first round |
| Jobs.ProcessRoundsOrdered | app/jobs.go:108-150 | when the process monitor's own clock (taken at line 108) does not go back, its points come in timestamp order, none before its first round |
| Jobs.Prune | app/jobs.go:40-42 | a row remains iff its opt_time is not before the cutoff |
| Jobs.PrunePartition | app/jobs.go:40-42 | the kept and the deleted rows together are the old table, as a multiset |
| Jobs.Dropped | app/jobs.go:40-42 | every row the retention deletes comes from the table and is older than the cutoff |
| Jobs.PruneIdempotent | app/jobs.go:40-42 | running the retention again with the same cutoff deletes nothing more |
| Jobs.RetentionBoundary | app/jobs.go:41-42 | a row exactly at now − 365 days remains; one a nanosecond older is deleted |
| Process.Host.Remove | app/app.go:174 | the path is absent afterwards |
| Webserver.AnyPrefix | webserver/server.go:229-234 | the loop with early return is true iff some listed prefix starts the path |
| Webserver.JwtSkip | webserver/server.go:223-236 | true whenever TEAMSACS_DEVMODE is "true"; otherwise true iff a JwtSkipPrefix entry is a raw prefix of the path |
| Webserver.SessionCheck | webserver/server.go:239-259 | the request passes iff it is from 127.0.0.1 to `/dbapi…`, or has a SessionSkipPrefix prefix, or the session user is neither nil nor ""; otherwise a 307 redirect to the login page |
| Webserver.ApiNeedsToken | webserver/server.go:45-61 | `/api` routes skip the session gate but not the JWT check outside development mode |
| Webserver.JwtSkipImpliesSessionSkip | webserver/server.go:45-61 | every JwtSkipPrefix entry is also a SessionSkipPrefix entry |
| Webserver.SigningKeyFor | webserver/server.go:161-175 | a wrong algorithm is rejected; with a key set, only a string `kid` naming a key yields that key and anything else is a key-id error; with no key set the single key is returned |
| Webserver.KeyOnlyForKnownKid | webserver/server.go:163-174 | a key is handed out only for the configured algorithm, and with a key set only the key the `kid` names |
| Webserver.ReaderFor | webserver/server.go:310-325 | a name ending in "json" goes to JSON, else one ending in "csv" to CSV, else Excel; no dot is required |
| Webserver.FillIdMeaning | webserver/server.go:327-337 | the step `FillId` writes a fresh "id" exactly when none of "id", "ID", "Id" holds a usable value, and otherwise leaves the row unchanged |
| Webserver.FillOne | webserver/server.go:328-337 | the three lookups in the source's order, and the fresh id, give exactly `FillId` |
| Webserver.FillIds | webserver/server.go:326-340 | the loop returns every row, in order, each after the id step |
| Webserver.ImportPreserves | webserver/server.go:326-340 | no key but "id" is written or removed; rows with a usable id under any spelling are unchanged |
| Webserver.ImportData | webserver/server.go:299-341 | upload, open and reader errors are returned as they are; otherwise the rows of the chosen reader with ids filled |
| Webserver.IdFirst | webserver/server.go:354-356 | the sort keeps the names, a permutation, and puts "id" first when present |
| Webserver.ExportRows | webserver/server.go:343-365 | row 1 is the header from the first item's keys, "id" first; item i fills row i + 2 under that same column list |
| Webserver.WriteRow | webserver/server.go:361-364 | the inner loop writes one cell per column, in column order: the row `RowOf` describes |
| Webserver.RowOf | webserver/server.go:361-363 | as many cells as columns; cell j is `Cell`, the `cast.ToString` (`ToString`) of the item's value under column j, or "" when the item lacks it |
| Webserver.ExportColumns | webserver/server.go:348-362 | the columns are exactly the first item's keys, each once; a key only later items have is not exported; a missing cell reads as "" |

## Left out

- HTTP plumbing: echo setup, middleware, TLS and the route helpers (webserver/server.go:64-156, webserver/server.go:400-418). `WrapJwtHandler`, `ServerRecover`, `GetCurrUser`, `GetCurrUserlevel`, `PubOpLog`, `ExportCsv` and `ExportJson` are framework wiring and are not modelled.
- JWT signature checking and token parsing are the jwt library's job; only the key-selection callback is modelled. Cookie-store sessions are an input, a `SessionValue`.
- Spreadsheet encoding: excelize, gocsv and JSON decoding, cell naming via `excel.COLNAMES`, the file name, `SaveAs` and the download. The readers are an input `read`. The sheet is a sequence of rows of cell texts. A sheet with more columns than `COLNAMES` has letters is not modelled.
- Webserver.ExportRows: the order of the non-"id" columns is the iteration order of a Go map, followed by an unstable sort. The model keeps the visiting order `keyOrder` it is given, and ExportColumns states only that this order lists the first item's keys.
- Webserver.ToString: `cast.ToString` is modelled for strings, integers, booleans and nil. Other values, such as the float64 numbers JSON decoding produces, are an opaque rendering `VOther`.
- `ImportData` mutates the row maps of the reader's slice in place, so the reader's items and the result alias each other. The model builds a new sequence of row values.
- Cron internals: cadence parsing, firing times and concurrent firing are robfig/cron's. The parser is the input `parseError`, and the scheduler is its registration table plus a running flag.
- Monitor concurrency: the two monitors run as goroutines (app/jobs.go:27-28). App.Application.MonitorJob runs them one after the other, so interleavings of their store writes are not modelled. The order of the two monitors' points relative to each other in the store is therefore not a property of the program, and only each monitor's own stream is proved ordered. The `recover` handlers of the monitors catch panics that the model's inputs cannot raise.
- The goroutine that sleeps three seconds and then calls `checkSuper`/`checkSettings` (app/app.go:92-96). Those functions are not part of this model.
- Logger configuration: `zaplog.InitGlobalLogger` and its options. Log messages are recorded as the text the logger writes for them: the two operands of `log.Error` are joined as Sprint joins two strings, with no space. Any prefix the logger adds (time, level, caller) is not modelled.
- Metric values: float64 is modelled as `real`. The conversion of a `uint64` byte count to float64 is taken to be exact.
- `os.WriteFile` in BackupDatabase is taken to succeed, so a failed write is not modelled. The source discards its error (app/app.go:172) and runs the shell anyway (app/app.go:175). After a failed write the shell would run whatever script already sits at `/tmp/databackup.sh`, and a stale script that exits 0 would make BackupDatabase report success. `os.Remove` is taken to succeed too.
- `GetSettingsInt64Value` (`cast.ToInt64`), and `MigrateDB`, `DropAll` and `InitDb` (gorm migrator calls), hold library behaviour that is not visible here.
- `getPgDatabase` (connection setup) is not part of this model. Init receives the opened database as `pg`. The SQL `limit 1` over duplicate `(type, name)` rows cannot arise, because a map holds one row per key.
- The `regexp.Compile` error branches (assets/assets.go:30-32, assets/assets.go:43-45) are unreachable for the two constant patterns and are not modelled.
- Process bootstrap: main.go, commands/initdb and commands/initdevcfg.
- `Release` is a package function over the global `app`. It is modelled as a method of the application and needs the scheduler that Init set up. Calling it before Init would dereference nil.
