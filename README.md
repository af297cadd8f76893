# Scheduled badminton-court booking: a Dafny model

This project models the core of XidianGymAppointmentTool, a desktop tool that books gym
courts on a campus reservation system. The core has three parts:

- **The scheduled booking engine** (`SchedulerManager` in core/schedule_task.py).
  `add_booking_task` either runs a booking at once or stores a job that fires at a given
  date and time; `_execute_booking_job` calls the allocation endpoint repeatedly within a
  ten-second window, classifies each response as booked, a transient conflict or a
  definitive failure, sends at most one notification e-mail (none without an address) and
  removes the job; the job store
  also offers `remove_job`, `get_pending_jobs_info`, `start` and `shutdown`.
- **The in-memory credential store** (`CredentialsConfig` in config/credentials_config.py):
  cookies, local and session storage, the derived `JWTUserToken` and the project root,
  with loading, saving, merging, clearing and deleting.
- **`get_plaintext_token`** (tools/token_util.py): reads `credentials.json`, returns the raw
  cookies entry, the parsed cookie dictionary and the JWT payload, and drops everything
  (clearing memory and deleting the file) when the JWT has expired.

Layout, one module per file:

- `values.dfy` (`Values`): `Option`, a JSON value type, Python truthiness, Python `==`
  between a JSON value and an int (where `True == 1`), and `dict.get`.
- `text.dfy` (`Text`): `str(int)` and its parser, `str.split` on one character, the `in`
  substring test, two-digit padding.
- `task_identity.dfy` (`TaskIdentity`): the proleptic Gregorian day count, the text of a
  job id and its parser, the job name.
- `schedule_task.dfy` (`ScheduleTask`): response classification, the retry loop as a
  specification function `Attempts` and as the loop method `RunAttempts`, the final
  notification, and the class `SchedulerManager` holding the running flag, the job store
  (`map<string, Job>`) and the outbox of sent e-mails. The loop's e-mail subject is kept as one of five
  values (`Subject`: unset, success, failure, conflict, error) whose text `SubjectText` gives.
- `credentials_config.dfy` (`CredentialsConfig`): the class `Credentials`, whose invariant
  `Valid()` is that the JWT token always equals the `JWTUserToken` cookie (or is None).
- `token_util.dfy` (`TokenUtil`): the decision chain `Decide` as a function, and
  `GetPlaintextToken` as a method that performs the clearing side effect.

What the environment supplies is a parameter:

- The allocation endpoint is an oracle. Attempt k receives `calls(k - 1)`: a response
  dictionary or a raised exception, plus how long the call took.
- There is one clock in naive local milliseconds. It advances by call latencies, the 0.5 s
  start sleep and the 3.75 s retry sleep.
- `hash(json.dumps(payload, sort_keys=True))` is a function `payloadHash`. The local-time
  offset used by `timestamp()` is a function `zoneOffsetMs`.
- A read of a JSON file is a `FileRead`: missing, malformed, or parsed. Whether a write
  succeeds is a boolean, and so is whether `os.makedirs` can create the config directory
  (`dirReady`). Whether credentials.json exists is not a parameter but the field
  `fileOnDisk` of the credential store, false where there is no path: a load refreshes
  it, a successful save sets it, a deletion clears it, and any path lookup that raises
  clears it too.
- `SimpleCookie`, the base64url-plus-UTF-8 decoder and `json.loads` are partial functions
  in `Decoders`.

Five behaviours of the code worth knowing:

- `add_booking_task` does not look at whether the scheduler runs. The model's job store is
  what a running APScheduler holds; how a stopped one keeps jobs is under "Left out".
- A run time at or before now executes synchronously inside `add_booking_task`, not on the
  scheduler's thread.
- `remove_job` reports True exactly when the id is in the job store the model keeps. That
  store is what a running APScheduler consults; what it consults while stopped is under
  "Left out".
- `get_plaintext_token` logs `datetime.fromtimestamp(exp)` in both expiry branches before
  it acts, so an `exp` outside that function's range drops the payload and clears nothing.
- The credential file path is computed, creating the config directory, outside every
  `try` of `credentials_config.py`. If the directory cannot be made, loading, saving and
  deleting raise before they change anything. In `get_plaintext_token`'s expiry branch that
  exception is caught by the payload's handler after the credentials have been cleared,
  so the call returns the raw entry and the dictionary without a payload. Since
  `os.makedirs(..., exist_ok=True)` fails only when the config path is not a directory,
  a failed lookup also shows that there is no credentials file there.

## Model

| member | source | states |
|---|---|---|
| Values.Get | core/schedule_task.py:131-132 | definition: `dict.get(k)`: the value under the key, or None when it is absent |
| Values.EqualsInt | core/schedule_task.py:134-139 | definition: Python's `==` between a `dict.get` result and an integer literal: None equals nothing, `True == 1`, `False == 0` |
| Values.Truthy | tools/token_util.py:48-61 | definition: Python truthiness of a JSON value: null, false, 0, "" and empty containers are false |
| Text.NatText | core/schedule_task.py:68 | definition: the decimal digits of a natural number, as `str` renders it |
| Text.IntText | core/schedule_task.py:68 | definition: `str(i)` of an integer, with a leading '-' when negative |
| Text.ParseNatText | core/schedule_task.py:68 | parsing the decimal text of a natural number gives the number back |
| Text.ParseIntText | core/schedule_task.py:68 | parsing `str(i)` (with its '-' sign) gives `i` back |
| Text.Split | tools/token_util.py:66 | `str.split` always returns at least one piece |
| Text.SplitJoin | tools/token_util.py:66 | joining the pieces with the separator rebuilds the string |
| Text.SplitPiecesHaveNoSeparator | tools/token_util.py:66 | no piece contains the separator |
| Text.SplitCount | tools/token_util.py:66-67 | there is one piece more than there are separators, so three parts means exactly two dots |
| Text.Contains | core/schedule_task.py:169 | definition: Python's substring test `sub in s` |
| TaskIdentity.CivilEpoch | core/schedule_task.py:103-104 | 1970-01-01 is day zero of the day count behind `(booking_date - today).days` |
| TaskIdentity.DaysFromCivil | core/schedule_task.py:103-104 | definition: the proleptic Gregorian day number of a date, as `date` subtraction counts days |
| TaskIdentity.LocalMs | core/schedule_task.py:65 | definition: `datetime.combine(date, time)` as naive local milliseconds since 1970-01-01 00:00 |
| TaskIdentity.DayNumber | core/schedule_task.py:103 | definition: the calendar day a local instant falls on, which `date.today()` reads |
| TaskIdentity.NextDayIsOneDayLater | core/schedule_task.py:103-104 | for every valid date the day number of the next calendar day (month and year ends, leap days and 400-year eras included) is one more, so differences of day numbers count calendar days |
| TaskIdentity.MarchFollowsFebruary | core/schedule_task.py:103-104 | March 1 is one day after the last day of February, which has 29 days exactly in Gregorian leap years |
| TaskIdentity.DayOfLocalInstant | core/schedule_task.py:102-103 | the instant of any date at any time within the day falls on that date's day number, which is what `date.today()` reads |
| TaskIdentity.FracText | core/schedule_task.py:68 | the fractional digits of `repr` of the timestamp are one to three digits |
| TaskIdentity.ParseFracText | core/schedule_task.py:68 | those digits give back the milliseconds |
| TaskIdentity.TimestampText | core/schedule_task.py:68 | the timestamp text holds no '_', so it cannot run into the hash part of the id |
| TaskIdentity.ParseTimestampText | core/schedule_task.py:68 | the timestamp text gives back the instant in milliseconds |
| TaskIdentity.JobId | core/schedule_task.py:68 | definition: `booking_job_`, the timestamp text, `_`, the hash text |
| TaskIdentity.DateText | core/schedule_task.py:84 | definition: `date.strftime('%Y-%m-%d')` |
| TaskIdentity.HourMinuteText | core/schedule_task.py:84 | definition: `time.strftime('%H:%M')` |
| TaskIdentity.JobName | core/schedule_task.py:84 | definition: `场馆预约任务 (<booking date> <HH:MM>)` |
| TaskIdentity.DateTimeText | core/schedule_task.py:193 | definition: `strftime('%Y-%m-%d %H:%M:%S')` of a date and a time |
| TaskIdentity.ParseJobIdRoundTrip | core/schedule_task.py:68 | a job id gives back the run instant and the payload hash it was built from |
| TaskIdentity.JobIdInjective | core/schedule_task.py:68-85 | two ids are equal exactly when instant and payload hash agree, so `replace_existing` replaces only a job with the same instant and the same payload hash (two payloads whose hashes collide share an id) |
| ScheduleTask.Outcome.Retryable | core/schedule_task.py:139-157 | definition: the outcomes after which the loop goes round again while the window lasts: a conflict and a raised exception |
| ScheduleTask.Classify | core/schedule_task.py:119-154 | definition: the response classes of the loop body, with a raised exception kept apart |
| ScheduleTask.ClassifyCases | core/schedule_task.py:131-154 | booked iff `type == 1` and `errorcode == 0` (recording `resultdata`), a conflict iff `type == 3` and `errorcode == 0`, definitive otherwise; an exception is retryable |
| ScheduleTask.SubjectOf | core/schedule_task.py:136-153 | definition: the subject each outcome assigns (success, failure, the conflict and the error subjects marked "尝试中") |
| ScheduleTask.BodyOf | core/schedule_task.py:137-154 | definition: the body each outcome assigns, with the order id, the message and error code, or the exception |
| ScheduleTask.SubjectText | core/schedule_task.py:136-153 | definition: the text of each subject the loop assigns, empty while unset |
| ScheduleTask.Attempts | core/schedule_task.py:111-158 | definition: the loop's run from a loop head, one attempt per step, stopping on success, on a definitive failure or when the window is used up |
| ScheduleTask.RunAttempts | core/schedule_task.py:111-158 | the while loop with its break and its sleep computes exactly the run `Attempts` describes |
| ScheduleTask.AttemptsLast | core/schedule_task.py:111-158 | a loop head that will attempt makes at least one attempt; the last outcome is the classification of the last call; the loop variables (count, success flag, subject, body) are the ones that outcome sets; a retryable last outcome means the window is used up |
| ScheduleTask.AttemptsRecords | core/schedule_task.py:111-158 | attempts are numbered 1, 2, ... with the same request; attempt k's outcome is the classification of the k-th response; every attempt but the last was retryable |
| ScheduleTask.AttemptsTiming | core/schedule_task.py:111-158 | attempt i starts no earlier than `i` pauses of 3.75 s after the start and before the window ends, and at least 3.75 s after the one before |
| ScheduleTask.WindowAllowsAtMostThreeAttempts | core/schedule_task.py:111-158 | a 10 s window with 3.75 s pauses allows one to three attempts |
| ScheduleTask.RefusalStopsAtOnce | core/schedule_task.py:144-149 | a definitive first response ends the loop after one attempt, unbooked, with the failure subject |
| ScheduleTask.ConflictConflictBooked | core/schedule_task.py:119-158 | conflict, conflict, booked: three attempts at 0, 3.75 and 7.5 s, booked with the order id, and the loop stops at once |
| ScheduleTask.ConflictSubjectInProgress | core/schedule_task.py:142-169 | the subject set on a transient conflict contains "尝试中", so the post-loop check treats it as unfinished |
| ScheduleTask.ErrorSubjectInProgress | core/schedule_task.py:153-169 | the subject set on a raised exception contains "尝试中" too |
| ScheduleTask.FailureSubjectFinal | core/schedule_task.py:147-169 | the definitive failure subject is non-empty and lacks "尝试中", so its own message is sent |
| ScheduleTask.FinalNotice | core/schedule_task.py:161-174 | definition: the post-loop choice of subject and body from the loop's variables |
| ScheduleTask.ExpectedNotice | core/schedule_task.py:131-174 | definition: the notice each last outcome calls for, written per outcome |
| ScheduleTask.NoticeAfterOutcome | core/schedule_task.py:161-172 | after any last outcome the post-loop choice gives success with the order id, a definitive failure with its own message and code, or the generic timeout message; nothing without an address |
| ScheduleTask.FinalNoticeMatchesOutcome | core/schedule_task.py:161-174 | the e-mail of a whole run is the one its last outcome calls for |
| ScheduleTask.AllRetryableTimesOut | core/schedule_task.py:139-172 | when every response is retryable the window runs out unbooked and the e-mail is the generic timeout message |
| ScheduleTask.DateAdd | core/schedule_task.py:102-104 | definition: the booking date's day number minus that of the moment after the 0.5 s sleep |
| ScheduleTask.DateAddIsDayDifference | core/schedule_task.py:102-104 | at any time of day the offset is the number of calendar days from today to the booking date, so a booking for tomorrow is sent as 1 |
| ScheduleTask.ExecutionRun | core/schedule_task.py:102-119 | definition: the loop run of one execution, started after the 0.5 s sleep with the day offset of that moment and venue "02" |
| ScheduleTask.TaskId | core/schedule_task.py:62-68 | definition: the id from the run instant (local time shifted by the zone offset, as `timestamp()` does) and the payload hash |
| ScheduleTask.InfoOf | core/schedule_task.py:190-198 | definition: one row of `get_pending_jobs_info` |
| ScheduleTask.SchedulerManager.constructor | core/schedule_task.py:27-37 | a new scheduler is stopped, with no jobs and no e-mail sent |
| ScheduleTask.SchedulerManager.Start | core/schedule_task.py:39-47 | afterwards the scheduler runs (a second start changes nothing); the jobs are kept |
| ScheduleTask.SchedulerManager.Shutdown | core/schedule_task.py:49-56 | afterwards the scheduler is stopped; the jobs are kept |
| ScheduleTask.SchedulerManager.RemoveJob | core/schedule_task.py:203-216 | returns True iff the id was stored; afterwards it is not, and every other job is unchanged |
| ScheduleTask.SchedulerManager.ExecuteBookingJob | core/schedule_task.py:91-183 | runs the loop from now + 0.5 s with the day offset of that moment; sends at most one e-mail, none without an address, chosen by `FinalNotice`; then removes the job's id, ignoring a failed removal |
| ScheduleTask.SchedulerManager.AddBookingTask | core/schedule_task.py:58-89 | the id is built from the run instant and the payload hash; a run time at or before now executes at once and leaves no job under the id; a later one stores exactly one job under the id with its name, run time and arguments, replacing any job there, so the count grows by at most one |
| ScheduleTask.SchedulerManager.GetPendingJobsInfo | core/schedule_task.py:185-201 | exactly one row per stored job, with the job's id, name, next run time (or "N/A") and status "待执行" |
| CredentialsConfig.MergeCookies | config/credentials_config.py:125-126 | `dict.update`: every new key takes its new value, every other cookie is kept, no other key appears |
| CredentialsConfig.Credentials.Valid | config/credentials_config.py:125-127 | definition: the store's invariant: the JWT token is `cookies.get("JWTUserToken")`, and there is no file where there is no path |
| CredentialsConfig.Credentials.constructor | config/credentials_config.py:13-27 | the store starts empty, with no token, no root and no known file, and satisfies its invariant |
| CredentialsConfig.Credentials.UpdateCookies | config/credentials_config.py:125-128 | cookies are merged and the token re-derived from the `JWTUserToken` cookie; storages and root are kept |
| CredentialsConfig.Credentials.ClearCredentials | config/credentials_config.py:130-138 | cookies and both storages become empty and the token None, whatever the state before, so a second call changes nothing |
| CredentialsConfig.Credentials.LoadCredentialsFromFile | config/credentials_config.py:39-76 | with a root, a config directory and a parsed file, cookies and storages take the file's values (absent ones empty) and the token is re-derived; with no root, no file or a parse error memory does not change; with a root whose config directory cannot be made the call raises and changes no memory; afterwards the store knows a file exactly when there is a root, a config directory and a file at the path |
| CredentialsConfig.Credentials.SaveCredentialsToFile | config/credentials_config.py:39-97 | a successful write leaves a file at the path, merges the saved cookies into memory and replaces both storages; no root or a failed write changes nothing; a config directory that cannot be made raises, changes no memory and shows that there is no file |
| CredentialsConfig.Credentials.SetProjectRootDir | config/credentials_config.py:29-37 | the root becomes the path; a reload happens only when the root was unset or different, so a repeat call changes nothing; after a reload the store knows a file exactly when the new root is non-empty, its config directory exists and the file is there; the reload raises, after the root is set, exactly when a non-empty new root's config directory cannot be made |
| CredentialsConfig.Credentials.HasFilePath | config/credentials_config.py:39-48 | definition: a path exists exactly when the root is set and non-empty (`if self._project_root_dir`) |
| CredentialsConfig.Credentials.PathRaises | config/credentials_config.py:43-46 | definition: looking up the path raises when there is a root and `os.makedirs` fails |
| CredentialsConfig.Credentials.DeleteCredentialsFile | config/credentials_config.py:99-111 | afterwards there is no file at the store's path (removed, absent, or shown absent by a config path that is not a directory, in which case the call raises); memory is untouched; the invariant is kept |
| TokenUtil.PadBase64 | tools/token_util.py:69-72 | the part is followed by the fewest '=' (zero to three) that make its length a multiple of four |
| TokenUtil.CheckExpiry | tools/token_util.py:79-98 | definition: the expiry check, an out-of-range `exp` and a non-numeric one discarding the payload |
| TokenUtil.ComparedExpiry | tools/token_util.py:82-92 | definition: the strict comparison for a numeric `exp`, after `fromtimestamp(exp)` has been accepted |
| TokenUtil.JwtPayload | tools/token_util.py:59-100 | definition: split, pad, decode and parse the JWT, then check its expiry |
| TokenUtil.CookiesPresent | tools/token_util.py:44-48 | definition: the file is a JSON object holding a truthy `cookies` entry |
| TokenUtil.Decide | tools/token_util.py:35-118 | definition: the decision chain without side effects |
| TokenUtil.DecideShape | tools/token_util.py:44-111 | without a truthy `cookies` entry the result is (None, None, None); otherwise the raw entry is the file's own, a parsed dictionary is the parser's result for it, and a payload comes only with a non-empty `JWTUserToken` |
| TokenUtil.NotThreePartsNoPayload | tools/token_util.py:66-97 | a JWT without exactly two dots gives no payload while raw and parsed cookies are returned |
| TokenUtil.ExpiryIsStrict | tools/token_util.py:79-98 | a payload without `exp` is returned unchecked; with a numeric `exp` that `fromtimestamp` accepts the token expires iff now > exp, so now == exp is still valid; an `exp` it rejects drops the payload whatever the time |
| TokenUtil.ExpiredJwtExpires | tools/token_util.py:79-100 | for a well-formed token with an accepted `exp`, now > exp makes the whole call expire and at now == exp the full triple is returned; with a rejected `exp` the raw and parsed cookies come back without a payload and nothing expires |
| TokenUtil.NoJwtNoPayload | tools/token_util.py:48-108 | a cookie-parse failure returns only the raw entry; a dictionary without a non-empty `JWTUserToken` comes back without a payload |
| TokenUtil.DecodeFailureKeepsCookies | tools/token_util.py:74-100 | a base64 or JSON failure drops only the payload; raw and parsed cookies are returned |
| TokenUtil.GetPlaintextToken | tools/token_util.py:35-118 | on expiry the credentials are cleared, afterwards there is no file at the store's path, and (None, None, None) is returned, except that when the deletion raises because the config directory cannot be made the raw entry and the dictionary are returned without a payload; otherwise the decision's triple is returned and the credentials and the file are untouched; the invariant is kept |

## Left out

- The singletons (`__new__` of both classes and the module-level instances): the model works on one object passed explicitly.
- APScheduler internals: the background thread, `DateTrigger` firing a stored job at its time and `shutdown(wait=False)`; the store is one map.
- ScheduleTask.SchedulerManager.RemoveJob: while the scheduler is stopped (before the first start or after `shutdown`), APScheduler looks only at the jobs added since it stopped ("tentative" jobs). After `shutdown` a stored job is then not found and the source returns False, where the model returns True. The model keeps one store in every state.
- ScheduleTask.SchedulerManager.AddBookingTask: while the scheduler is stopped (before the first `start` or after `shutdown`), APScheduler's `add_job` only appends the job to its list of tentative jobs and applies `replace_existing` when it starts, so two submissions of the same payload and time leave two entries under one id until then. The model replaces at once in every state, so its count grows by at most one. The application starts the scheduler before any job can be submitted.
- ScheduleTask.SchedulerManager.GetPendingJobsInfo: does not state the order of the rows, which APScheduler sorts by next run time; the model's rows come in an unspecified order. While the scheduler is stopped, APScheduler's `get_jobs` returns only the tentative jobs, which have no `next_run_time` yet, so reading it raises AttributeError whenever one exists; after `shutdown` with no tentative jobs the source lists nothing. The model lists every stored job in every state.
- `load_persisted_tasks`: it only logs.
- Logging and `print`: no effect on state. The one log call that can raise and so changes the outcome, `fromtimestamp(exp)` in `get_plaintext_token`, is modelled. Its twin `fromtimestamp(time.time())` is taken to succeed, as any real clock reading is in range.
- The text of e-mail bodies: the f-strings and `json.dumps(..., indent=2)` renderings are kept as structured values (`Body`).
- Delivery by `send_email`: each call is recorded in the outbox; whether SMTP succeeds is not modelled.
- The `OrderFieldFree` endpoint and HTTP: an oracle of responses and exceptions with latencies.
- `hash` and `json.dumps(sort_keys=True)`: one abstract function of the payload.
- Floating point: instants are whole milliseconds. The id's timestamp text is exact `repr` only for instants without an exponent. JSON numbers are integers, so `exp` cannot be fractional.
- Real time and time zones: `time.time()` and `datetime.now()` are one clock; the local zone is a given offset function.
- File system effects for credentials: the read result, the write outcome and whether `os.makedirs` succeeds are parameters; the existence of credentials.json is the field `fileOnDisk`. The contents written to disk are not state of the model. An exception raised out of `set_project_root_dir` or `save_credentials_to_file` is the `raised` result; what its caller then does is outside this core.
- Ill-typed entries of `credentials.json` (a `cookies` entry that is not a dictionary in `load_credentials_from_file`): the file's entries are typed.
- Aliasing of the dictionaries returned by the getters: the model's fields are values.
- CredentialsConfig.Credentials.DeleteCredentialsFile: takes `os.remove` of an existing file to succeed. In the source a failing removal (no permission, file in use) is logged and ignored and the file stays.
- CredentialsConfig.Credentials.SaveCredentialsToFile: a write that fails after `open` has created the file is modelled as leaving the file's presence as it was.
- The GUI, its call sites of `add_booking_task`, the HTTP wrappers, the database and Firebase code: outside this core.
