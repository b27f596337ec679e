# Hearthstone log watcher: a Dafny model

This project models the core of a Hearthstone deck-tracker client for streamers. The
client watches Hearthstone's log folders and finds the newest session's `Power.log`.
It re-reads that file on a timer and extracts the two players' cards from the last game.
It then posts a `{"my_cards": ..., "enemy_cards": ...}` snapshot to a web API. Its
settings come from built-in defaults, an optional `settings.ini` and the environment.

The model is purely functional. The watcher (`HSLogWatcher`) is an immutable record. Each
of its methods is a function from the old record to the new one, together with the
messages sent to the GUI callback and what the method returns or raises. Everything the
program asks of the outside world becomes an input:

- the directory listing and `os.path.exists`/`isdir` (`LogFolders.FileSystem`);
- what `LogParser.read` makes of the file (`Watcher.ReadOutcome`);
- what the hslog exporters return (`Cards.ParsedGame`);
- what `requests` did (`ApiSender.HttpOutcome`);
- the settings file, the environment, the user's profile directory;
- the Tk timer id.

Modules, following the three source files:

- `LogFolders`: `find_latest_log_file`, i.e. the folder-name pattern, the field parsing,
  `datetime` validity and the newest-first stable sort. `Timestamp` holds the calendar,
  `PyText` holds Python's `int()`, `str.replace`, `str.split` and `str()` of a
  non-negative int, and `WinPath` holds `ntpath.join`.
- `Cards`: the card-extraction helpers and `get_last_game_players`.
- `Watcher`: `set_log_path`, `mount_log_file`, `parse_log_file`, `schedular`,
  `stop_log_watcher` and the setters, plus an invariant over all reachable states. The
  watcher takes the folder search as a parameter (`Watcher.Search`). `AsWritten` is
  `find_latest_log_file` exactly as the program has it, and `Corrected` is the search with
  the fix described under Findings. The two behave the same except on that finding's input.
- `ApiSender`: `LogApiSender`. It covers the requests built and the way an HTTP outcome
  becomes the result dict.
- `Config`: `load_config` and the module-level values of `config.py`.
- `Optional`, `Seqs` and `JsonValue` are supporting definitions.

The platform is Windows: paths are joined with `\` and the default log folder is under
`AppData`. Environment variable names are case-insensitive there, and `os.environ` holds
them upper-cased. The Python version is 3.11 or later, because `typing.assert_type` exists.
`config.py` is modelled as Python 3.13 and later read a settings file that stops part-way
(see `Config.Resolve` under Left out). `configparser` runs in its default strict mode.
`requests` is version 2.27 or later, where a body that fails to decode raises a
`RequestException` that carries no response.

## Model

| member | source | states |
|---|---|---|
| LogFolders.Classify | log_parser.py:100-115 | only a directory whose name matches `Hearthstone_\d{4}_\d{2}_\d{2}_\d{2}_\d{2}_\d{2}` at the start and splits into six `int()`-parsable fields can qualify or overflow; such an entry overflows exactly when a value leaves the C `int` range, and otherwise qualifies exactly when the values form a valid datetime, which is then its stamp |
| LogFolders.ParseAll | log_parser.py:105-110 | the fields parse exactly when every field passes `int()`, and the values are those of `int()` field by field |
| LogFolders.Scan | log_parser.py:99-115 | the loop decides each listing entry independently and in listing order |
| LogFolders.Candidates | log_parser.py:98-117 | `log_folders` is empty exactly when no entry qualifies |
| LogFolders.SortNewestFirst | log_parser.py:122 | sorting keeps every candidate: the result is a permutation of the input |
| LogFolders.SortedHeadIsNewest | log_parser.py:122-123 | the head of the sorted list is a folder with the greatest datetime, and among equal datetimes it is the first one listed (the sort is stable also with `reverse=True`) |
| LogFolders.FindLatestLogFile | log_parser.py:88-127 | `None` install path raises; a missing Logs directory gives `None` and the "missing" message; a Logs path that is not a directory raises; no qualifying folder gives `None` and the "no folders" message; otherwise the result is `<Logs>\<newest folder>\Power.log` |
| LogFolders.FindLatestLogFileAsWritten | log_parser.py:88-127 | as written, once the Logs directory is listed, the search raises exactly when some listed entry is a matching directory with six `int()`-parsable fields one of which is outside the C `int` range (`datetime` raises `OverflowError`, which escapes `except ValueError`); whenever it does not raise it returns what the corrected search returns, and before the listing (no install path, no Logs folder, a Logs path that is not a directory) the two searches give the same result |
| LogFolders.CollectAsWrittenScan | log_parser.py:99-115 | the loop as written, which stops at the first overflowing entry, raises exactly when such an entry is listed, and otherwise collects the same folders, in the same order, as the loop that skips overflowing entries |
| LogFolders.FolderNameRoundTrip | log_parser.py:95-113 | the folder Hearthstone names for a session at `d` qualifies with datetime `d` exactly when `d` is a real date, and is skipped otherwise |
| LogFolders.ClassifyStamped | log_parser.py:100-115 | any `Hearthstone_` name made of six zero-padded digit fields parses back to those fields' values |
| LogFolders.NewerSessionSelected | log_parser.py:88-127 | with two session folders listed in either order, the later session's `Power.log` is chosen |
| LogFolders.OverflowingFolderAbortsScan | log_parser.py:104-113 | next to a valid session, a well-formed folder whose seconds field exceeds 2147483647 makes the search as written raise, while the corrected search returns the valid session |
| LogFolders.OverflowPartsOverflow | log_parser.py:95-109 | the folder name `Hearthstone_2024_01_01_00_00_002147483648` is well formed and its seconds field is beyond the C `int` range |
| LogFolders.CorrectedScanNeverRaises | log_parser.py:96-127 | once the Logs directory can be listed, the corrected search never raises |
| Timestamp.DaysInMonth | log_parser.py:106-109 | months have 28 to 31 days, and 29 exactly for February of a Gregorian leap year |
| Timestamp.BeforeStrictTotal | log_parser.py:122 | the datetime order used by the sort is irreflexive, asymmetric, total on distinct values and transitive |
| Timestamp.CalendarExamples | log_parser.py:106-111 | `datetime` rejects year 0, 29 February outside leap years, 31 April and hour 24 |
| PyText.NatTextRoundTrip | config.py:94 | `int(str(n)) == n` for every non-negative `n` |
| PyText.SplitJoin | log_parser.py:105 | `'_'.join(s.split('_')) == s`, and no part contains the separator |
| PyText.JoinSplit | log_parser.py:105 | splitting a join of separator-free parts returns the parts |
| PyText.RemoveAllAbsent | log_parser.py:105 | `replace` leaves a string without the pattern's first character unchanged |
| PyText.PadValue | log_parser.py:109-110 | a zero-padded decimal field reads back as the number it was made from |
| WinPath.JoinEndsWith | log_parser.py:90 | `os.path.join(a, b)` ends with `b`, and is longer than `b` when `a` is not empty |
| Cards.RecordFields | log_parser.py:186-188 | a record keeps the entity id, has `realId` equal to CREATOR_DBID or 0, and has a card id that is null exactly when the entity's is missing or empty |
| Cards.AllPlayerCards | log_parser.py:180-198 | it fails exactly when there is no player; otherwise it gives one record per truthy entity of the player, in order |
| Cards.CardsIn | log_parser.py:230-242 | the loop's list is the records of the entities that pass the card test, in order |
| Cards.Grave | log_parser.py:163-178 | it fails exactly when there is no player; otherwise it gives the player's card entities in the graveyard, in order |
| Cards.ZoneCards | log_parser.py:129-161 | hand/field extraction fails exactly when some card in the zone has no CONTROLLER to compare; otherwise it gives the cards in the zone with the player's controller, in order |
| Cards.LastGamePlayers | log_parser.py:200-228 | the result is `None` exactly when there is no game, an exporter raises or the exported game is falsy; otherwise `me` is the last player with the friendly id and `enemy` is the last other player |
| Cards.AssignSidesIsLastWhere | log_parser.py:215-221 | the overwrite-as-you-go loop over players equals "last matching player" for both sides |
| Cards.TwoPlayers | log_parser.py:215-222 | with two players of different ids, one friendly, `me` is the friendly one and `enemy` is the other |
| Watcher.NewWatcher | log_parser.py:19-30 | a new watcher has no paths, is unmounted, has an empty parser and no timer, and satisfies the invariant |
| Watcher.SetInstallPath | log_parser.py:33-34 | only the install path changes |
| Watcher.SetRoot | log_parser.py:308-310 | only the root window changes |
| Watcher.SetLogPath | log_parser.py:36-43 | the same path changes nothing and says nothing; a different path becomes both current and last path, gets a fresh parser, and is announced when there is a callback; nothing else changes |
| Watcher.Remount | log_parser.py:50-67 | for a found, existing path: a stale current path is replaced, and the announcement raises without a callback; otherwise a path other than the last one is adopted and announced (`None` is returned), and the same path returns `True` and changes nothing |
| Watcher.Mount | log_parser.py:45-67 | with either search: a search that raises or returns `None` makes the mount raise (`os.path.exists(None)`); a found path that does not exist returns `False` with no state change; otherwise the search's messages come first, followed by the remount |
| Watcher.Parse | log_parser.py:69-85 | the watcher is mounted exactly when the current path is an existing plain file and reading succeeds; then the parser holds exactly the games read; on failure it holds what was read before the error (or nothing if the file did not open) and "waiting for game" is sent |
| Watcher.CollectCards | log_parser.py:262-271 | the snapshot holds each side's cards, or `[]` plus one error message for a missing side |
| Watcher.Schedular | log_parser.py:245-284 | re-arming raises exactly when no root window is set, and otherwise records the new timer; at most one snapshot is posted, and it is posted exactly when the mount did not raise, a callback exists, the file parsed and the last game was exported; the snapshot holds the cards of that game's two sides |
| Watcher.Stop | log_parser.py:292-306 | after stopping, there is no path, no mount and no pending timer; the parser is gone only if the path was already unset, because `set_log_path(None)` otherwise recreates it; the messages are "stopped" and then the path change |
| Watcher.RunKeepsInv | log_parser.py:36-43 | with either search, every sequence of setters (install path, root window, the sender's API key), ticks and stops keeps the invariant: current path equals last path, a timer implies a root, and mounted implies a parser |
| Watcher.ReachableInv | log_parser.py:19-30 | every state reachable from a new watcher satisfies the invariant |
| Watcher.MountSettles | log_parser.py:60-67 | after a mount that found an existing log, mounting again against the same folders returns `True` silently and changes nothing |
| Watcher.SilentFirstCycle | log_parser.py:53-56 | without a callback, the first cycle adopts the new path and then raises, so nothing is parsed or sent; the next mount accepts the path |
| Watcher.SnapshotCycle | log_parser.py:245-278 | in the normal case, one cycle posts the friendly player's cards and the opponent's, mounts, keeps the games read and arms the timer |
| Watcher.StopTwice | log_parser.py:292-306 | a second stop only drops the parser that the first one recreated, and sends only the "stopped" message |
| Watcher.SearchesAgree | log_parser.py:245-284 | a cycle of the program as written and a cycle with the corrected search are identical whenever the search as written does not raise |
| Watcher.OverflowStallsWatcher | log_parser.py:46-47 | next to a valid session, a folder whose seconds field overflows makes every cycle as written end in the catch-all: the path, the mount flag and the parser stay as they were, nothing is posted, and only the "transient error" message is sent; the corrected search adopts the session's `Power.log` |
| Watcher.RaisingSearchStalls | log_parser.py:245-284 | when the folder search raises, the cycle ends in the `except Exception` branch: only the timer changes, nothing is posted, and the "transient error" message is sent when there is a callback |
| ApiSender.NewSender | api_sender.py:10-21 | the URL comes from `API_URL` whatever the constructor is given; there is no key and no headers |
| ApiSender.SetApiKey | api_sender.py:23-29 | the headers are exactly `Content-Type: application/json` and `Authorization: Bearer <key>`, in that order |
| ApiSender.EndpointInjective | api_sender.py:87-154 | two (game, resource) pairs never share an endpoint URL |
| ApiSender.EventRequest | api_sender.py:75-97 | the request is a POST to `<url>/games/<id>/events` with body `{"type": ..., "data": ...}` |
| ApiSender.StateRequest | api_sender.py:111-129 | the request is a PUT of the state, unchanged, to `<url>/games/<id>/state` |
| ApiSender.EndRequest | api_sender.py:143-161 | the request is a POST of the result, unchanged, to `<url>/games/<id>/end` |
| ApiSender.LogDataRequest | api_sender.py:31-43 | the worker POSTs the data, unchanged, to the API URL itself |
| ApiSender.WorkerResultMeaning | api_sender.py:38-60 | success is reported exactly when the server answered with a non-4xx/5xx status and an empty or decodable body; `status_code` is the response's status, and for request errors it is the error's response status or null; a 4xx/5xx answer gives the `raise_for_status` text as `error`; an accepted status with a body that does not decode gives the decoder's message as `error` and a null `status_code`, because that error carries no response |
| ApiSender.WorkerResultKeys | api_sender.py:45-60 | on success the keys are `success, status_code, response`; on a request error they are `success, error, status_code`; on any other exception they are `success, error` |
| ApiSender.SyncAgreesWithWorker | api_sender.py:89-109 | the synchronous senders return what the thread worker would, except that exceptions other than `RequestException` escape |
| ApiSender.SyncResultOf | api_sender.py:104-109 | a synchronous send raises exactly when the failure is not a `RequestException` |
| Config.ApplyEntriesLast | config.py:35-37 | setting the entries that were read one after another leaves each option with the last value they give it, and otherwise its earlier value |
| Config.OnlyEntryValue | config.py:37 | when the entries read never repeat an option, an option's value is that of its only entry |
| Config.ReadOptionsPrefix | config.py:37 | strict reading of a section takes in a prefix of its lines whose options are all new, and raises exactly when some option of the section repeats, after folding to lower case |
| Config.ReadOptionsStop | config.py:37 | when a section's read raises, the line it stopped at repeats an option read earlier in that section |
| Config.ReadSectionsMeaning | config.py:35-37 | reading the file raises (`DuplicateSectionError` or `DuplicateOptionError`) exactly when a section header appears twice or a section repeats an option; what was taken in is a prefix of the file's entries, all of them when nothing repeats, and it never sets an option twice |
| Config.ReadFile | config.py:35-42 | reading raises exactly when the file is broken or repeats a header or an option; the entries taken in are a prefix of the file's and have distinct keys |
| Config.RepeatedOptionKeepsFirst | config.py:35-42 | a section that names an option twice, in any case, keeps the first value, and the file is written back |
| Config.EffectiveEnvMeaning | config.py:45 | `load_dotenv()` does not override: a variable already set keeps its value; a missing one is set exactly when a `.env` pair names it, in any letter case, with a value, and the first such pair wins |
| Config.LoadConfig | config.py:24-55 | every default option is present afterwards, and the file is written back exactly when reading it raised: the file is broken, or it repeats a section header or an option within a section |
| Config.LoadConfigPrecedence | config.py:27-53 | per option: a non-empty environment variable (API_URL, API_KEY and HEARTHSTONE_PATH only) beats the file, the file's entries read before any error beat the default |
| Config.ResolveLogPath | config.py:84-91 | `LOG_PATH` is never empty: the configured value, else `<HEARTHSTONE_PATH>\Logs`, else the per-user AppData folder |
| Config.Resolve | config.py:76-94 | apart from interpolation errors and the Python 3.11/3.12 behaviour (see Left out), importing fails exactly when `MONITOR_INTERVAL` is not an `int()` literal; otherwise the exported values are the loaded settings with the log path resolved |
| Config.DefaultsResolve | config.py:9-21 | with no file and no environment, the URL is the example URL, the key is empty, the interval is 5 and the log path is the per-user default |
| Config.ProcessEnvWins | config.py:45-49 | a non-empty `API_URL` in the process environment is the URL used, whatever the file and `.env` say |
| Config.DotenvNameFolded | config.py:45-49 | without `API_URL` in the process environment, the first `.env` line naming it in any letter case (`api_url=...` included) with a non-empty value gives the URL used |

## Left out

- Reading the log and exporting games (`hslog`'s `LogParser`, `EntityTreeExporter` and `FriendlyPlayerExporter`) are outside this code. Their results are inputs (`ReadOutcome`, `ParsedGame`).
- Threads: `send_log_data` starts a daemon thread. The model gives the request it makes; the worker's result dict is discarded by the program and is modelled only as `WorkerResult`.
- Timers: `root.after` and `after_cancel` are modelled as recording and clearing a timer id. The 5-second delay is not modelled.
- `print`, `traceback.print_exc`, `gc.collect`, `self.exporter` and the message texts are left out. Messages are the `Notice` values.
- `is_running` is stored but never read, so it is not modelled.
- Exception texts other than the `raise_for_status` text are left out, and so are the `reason` decoding and the wording of `requests`' own errors.
- `get_all_player_cards` catches an exception per entity (log_parser.py:184-190). Entities are modelled as well-formed, so that inner handler never fires.
- `get_all_cards(last_game)` is computed by `schedular` and then discarded. It has no effect, so the cycle does not compute it.
- `mount_log_file`'s branch "no path found" (log_parser.py:57-59) cannot be reached, because a path that exists is never empty. It is not modelled.
- Python `int()` is modelled for ASCII digits and ASCII whitespace only. Unicode digits and spaces are left out, as is the `\d` of the regular expression matching non-ASCII digits.
- PyText.ParseInt: does not model the `ValueError` Python 3.11 raises for a literal of more than 4300 digits, because that limit is a runtime setting and no realistic folder name or setting comes near it. `Config.Resolve` inherits this.
- `ntpath.join` is modelled for a relative second component with no drive. UNC paths are left out.
- `expanduser` is modelled by its result. `home` is the profile directory that `USERPROFILE`/`HOMEDRIVE`+`HOMEPATH` give, and without one the path stays unexpanded.
- Config: the settings file's syntax, `configparser` interpolation (`%` in values), the `DEFAULT` section and `save_config`'s file writing are left out. The file is given as its sections, each with its `option = value` lines.
- Config.ReadFile: a file that fails for another reason is given as `Broken` with the sections taken in. The model does not say where such a read stops. A line before any header stops it at once, a malformed line raises only after the whole file was read, and an undecodable byte stops it at a point set by the decoder's buffering.
- Config.Resolve: follows Python 3.13 and later, which join the values read before a read error into strings. On Python 3.11 and 3.12, a read that stops part-way leaves those values as unjoined lists. This happens on a repeated header or option, a line before any header, or an undecodable byte. `CONFIG.get` then raises for any of them the environment did not replace, and the import fails. The model does not promise that failure.
- Config.EffectiveEnv: takes `.env` as python-dotenv's parsed pairs. The file's syntax, `${VAR}` expansion and the last-value rule for a name repeated in the same spelling are not modelled. Names are folded as on Windows; elsewhere `os.environ` is case-sensitive.
- Config.Lower: folds ASCII letters only. Python's `str.lower` also folds non-ASCII letters, and `Config.Upper` has the same limit for `str.upper`.
- `LOG_FILES`, `CONFIG_FILE` and `DEFAULT_LOG_PATH` are constants that no modelled code reads.
- The GUI (`gui.py`) and the packaging script are not part of this model.

## Findings

| source | as written | input that shows it | evidently intended | confidence | as-written member | corrected member |
|---|---|---|---|---|---|---|
| log_parser.py:104-113 | `datetime(...)` is guarded by `except ValueError: continue`, but CPython's `datetime` raises `OverflowError` when an argument does not fit a C `int`, and that is not a `ValueError` | a Logs folder holding a session folder and a directory named `Hearthstone_2024_01_01_00_00_002147483648`. The name matches the pattern (which only anchors the start) and its seconds field is 2147483648, so the whole search raises and no log is mounted | a malformed folder is skipped like any other unusable name, and the newest valid session is still found | not executed | LogFolders.FindLatestLogFileAsWritten (shown by LogFolders.OverflowingFolderAbortsScan and, for the watcher, Watcher.OverflowStallsWatcher) | LogFolders.FindLatestLogFile (with LogFolders.CorrectedScanNeverRaises; the watcher's `Corrected` search) |
