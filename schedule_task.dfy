/** The scheduled booking engine of core/schedule_task.py: response classification, the
    ten-second retry loop of `_execute_booking_job`, the final notification, and the
    scheduler's job store (`add_booking_task`, `remove_job`, `get_pending_jobs_info`,
    `start`, `shutdown`).

    The allocation endpoint is an oracle `calls`: attempt k (1-based) receives `calls(k - 1)`,
    a response (or a raised exception) together with how long the call took. All clock
    readings are naive local milliseconds; the clock only moves forward, by call latencies
    and by the 0.5 s and 3.75 s sleeps. */
module ScheduleTask {
  import opened Values
  import opened Text
  import opened TaskIdentity

  const WindowMs: int := 10000
  const RetryDelayMs: int := 3750
  const StartDelayMs: int := 500
  const VenueNo: string := "02"

  /** The in-progress mark that the two transient subjects carry in parentheses. */
  const InProgressMark: string := "尝试中"
  const SuccessSubject: string := "场馆预约成功提醒"
  const FailureSubject: string := "场馆预约失败提醒"
  const ConflictSubject: string := FailureSubject + " (" + InProgressMark + ")"
  const ErrorSubject: string := "场馆预约任务执行错误" + " (" + InProgressMark + ")"
  const PendingStatus: string := "待执行"
  const NoRunTime: string := "N/A"

  /** The arguments of one `OrderFieldFree(checkdata, dateadd, VenueNo)` call. */
  datatype Request = Request(checkData: Json, dateAdd: int, venueNo: string)

  /** What one call produced: the response dictionary, or an exception raised by the call
      (or by reading a response that is not a dictionary). */
  datatype Response = Returned(body: map<string, Json>) | Raised(error: string)

  datatype Call = Call(response: Response, latencyMs: nat)

  /** The three response classes, with a raised exception kept apart from a conflict. */
  datatype Outcome =
    | Booked(orderId: Option<Json>)
    | Conflict(message: Json)
    | Refused(message: Json, errorCode: Option<Json>)
    | TransportError(error: string)
  {
    /** The outcomes after which the loop tries again while the window lasts. */
    predicate Retryable() {
      Conflict? || TransportError?
    }
  }

  /** Classification of one response (`type == 1 and errorcode == 0` books,
      `type == 3 and errorcode == 0` is a conflict, anything else is definitive). */
  function Classify(r: Response): Outcome {
    match r
    case Raised(e) => TransportError(e)
    case Returned(b) =>
      var message := if "message" in b then b["message"] else JStr("Unknown result");
      var responseType, code := Get(b, "type"), Get(b, "errorcode");
      if EqualsInt(responseType, 1) && EqualsInt(code, 0) then Booked(Get(b, "resultdata"))
      else if EqualsInt(responseType, 3) && EqualsInt(code, 0) then Conflict(message)
      else Refused(message, code)
  }

  lemma ClassifyCases(b: map<string, Json>, e: string)
    ensures Classify(Raised(e)).Retryable()
    ensures Classify(Returned(b)).Booked? <==> EqualsInt(Get(b, "type"), 1) && EqualsInt(Get(b, "errorcode"), 0)
    ensures Classify(Returned(b)).Conflict? <==> EqualsInt(Get(b, "type"), 3) && EqualsInt(Get(b, "errorcode"), 0)
    ensures Classify(Returned(b)).Refused? <==>
      !(EqualsInt(Get(b, "errorcode"), 0) && (EqualsInt(Get(b, "type"), 1) || EqualsInt(Get(b, "type"), 3)))
    ensures Classify(Returned(b)).Booked? ==> Classify(Returned(b)).orderId == Get(b, "resultdata")
  {
  }

  /** The content of a notification e-mail: the source's f-string bodies, kept as values. */
  datatype Body =
    | NoBody
    | SuccessBody(slots: Json, orderId: Option<Json>)
    | ConflictBody(message: Json, slots: Json)
    | FailureBody(message: Json, errorCode: Option<Json>, slots: Json)
    | ErrorBody(error: string, slots: Json)
    | TimeoutBody(slots: Json)

  datatype Email = Email(to: string, subject: string, body: Body)

  /** The values `final_email_subject` takes: unset, or one of the four subjects. */
  datatype Subject = Unset | SuccessNotice | FailureNotice | ConflictNotice | ErrorNotice

  /** The text of a subject as the e-mail carries it. */
  function SubjectText(s: Subject): string {
    match s
    case Unset => ""
    case SuccessNotice => SuccessSubject
    case FailureNotice => FailureSubject
    case ConflictNotice => ConflictSubject
    case ErrorNotice => ErrorSubject
  }

  /** The loop's variables `attempt`, `booking_successful`, `final_email_subject`, `final_email_content`. */
  datatype LoopState = LoopState(attempt: nat, successful: bool, subject: Subject, body: Body)

  const Initial: LoopState := LoopState(0, false, Unset, NoBody)

  /** One attempt as the log records it. */
  datatype AttemptRecord = AttemptRecord(number: nat, startedMs: int, request: Request, outcome: Outcome)

  /** Where the loop left off: its variables, the clock and every attempt made. */
  datatype Run = Run(state: LoopState, clockMs: int, trace: seq<AttemptRecord>)

  /** The subject and body an outcome leaves in the loop variables. */
  function SubjectOf(o: Outcome): Subject {
    match o
    case Booked(_) => SuccessNotice
    case Conflict(_) => ConflictNotice
    case Refused(_, _) => FailureNotice
    case TransportError(_) => ErrorNotice
  }

  function BodyOf(o: Outcome, slots: Json): Body {
    match o
    case Booked(id) => SuccessBody(slots, id)
    case Conflict(m) => ConflictBody(m, slots)
    case Refused(m, c) => FailureBody(m, c, slots)
    case TransportError(e) => ErrorBody(e, slots)
  }

  /** The retry loop from a loop-head state: `now` is the clock when the guard is read.
      A booked or definitive outcome ends the loop; a retryable one sleeps and goes
      round again only while the clock is still inside the window. */
  function Attempts(calls: nat -> Call, req: Request, now: int, end: int, st: LoopState): Run
    decreases if now < end then end - now else 0
  {
    if !(now < end) || st.successful then Run(st, now, [])
    else
      var call := calls(st.attempt);
      var o := Classify(call.response);
      var after := now + call.latencyMs;
      var next := LoopState(st.attempt + 1, o.Booked?, SubjectOf(o), BodyOf(o, req.checkData));
      var record := AttemptRecord(st.attempt + 1, now, req, o);
      if o.Retryable() && after < end then
        var rest := Attempts(calls, req, after + RetryDelayMs, end, next);
        Run(rest.state, rest.clockMs, [record] + rest.trace)
      else
        Run(next, after, [record])
  }

  /** The retry loop of `_execute_booking_job`: `while time.time() < end_time and not booking_successful`. */
  method RunAttempts(calls: nat -> Call, req: Request, start: int) returns (run: Run)
    ensures run == Attempts(calls, req, start, start + WindowMs, Initial)
  {
    var end := start + WindowMs;
    var clock := start;
    var attempt: nat := 0;
    var successful := false;
    var subject := Unset;
    var body := NoBody;
    var trace: seq<AttemptRecord> := [];
    while clock < end && !successful
      invariant var rest := Attempts(calls, req, clock, end, LoopState(attempt, successful, subject, body));
        Attempts(calls, req, start, end, Initial) == Run(rest.state, rest.clockMs, trace + rest.trace)
      decreases if clock < end then end - clock else 0, if successful then 0 else 1
    {
      ghost var traceBefore := trace;
      ghost var rest := Attempts(calls, req, clock, end, LoopState(attempt, successful, subject, body));
      attempt := attempt + 1;
      var call := calls(attempt - 1);
      var outcome := Classify(call.response);
      var record := AttemptRecord(attempt, clock, req, outcome);
      trace := trace + [record];
      clock := clock + call.latencyMs;
      match outcome {
        case Booked(orderId) =>
          subject := SuccessNotice;
          body := SuccessBody(req.checkData, orderId);
          successful := true;
        case Conflict(message) =>
          subject := ConflictNotice;
          body := ConflictBody(message, req.checkData);
        case Refused(message, code) =>
          subject := FailureNotice;
          body := FailureBody(message, code, req.checkData);
          assert rest == Run(LoopState(attempt, successful, subject, body), clock, [record]);
          break;
        case TransportError(e) =>
          subject := ErrorNotice;
          body := ErrorBody(e, req.checkData);
      }
      assert LoopState(attempt, successful, subject, body)
        == LoopState(attempt, outcome.Booked?, SubjectOf(outcome), BodyOf(outcome, req.checkData));
      if !successful && clock < end {
        clock := clock + RetryDelayMs;
        ghost var next := Attempts(calls, req, clock, end, LoopState(attempt, successful, subject, body));
        assert rest == Run(next.state, next.clockMs, [record] + next.trace);
        AppendOne(traceBefore, record, next.trace);
      } else {
        assert rest == Run(LoopState(attempt, successful, subject, body), clock, [record]);
      }
    }
    run := Run(LoopState(attempt, successful, subject, body), clock, trace);
  }

  /** How a run ends, from any loop head that will make an attempt: at least one attempt;
      the last outcome is the classification of the last call; the loop variables are the
      ones that outcome sets; and a retryable last outcome means the window is used up. */
  lemma {:induction false} AttemptsLast(calls: nat -> Call, req: Request, now: int, end: int, st: LoopState)
    requires now < end && !st.successful
    ensures var r := Attempts(calls, req, now, end, st);
      && 1 <= |r.trace|
      && var last := r.trace[|r.trace| - 1].outcome;
         && last == Classify(calls(st.attempt + |r.trace| - 1).response)
         && r.state == LoopState(st.attempt + |r.trace|, last.Booked?, SubjectOf(last), BodyOf(last, req.checkData))
         && (last.Retryable() ==> r.clockMs >= end)
    decreases end - now
  {
    var call := calls(st.attempt);
    var o := Classify(call.response);
    var after := now + call.latencyMs;
    var next := LoopState(st.attempt + 1, o.Booked?, SubjectOf(o), BodyOf(o, req.checkData));
    var record := AttemptRecord(st.attempt + 1, now, req, o);
    var r := Attempts(calls, req, now, end, st);
    if o.Retryable() && after < end {
      var rest := Attempts(calls, req, after + RetryDelayMs, end, next);
      assert r == Run(rest.state, rest.clockMs, [record] + rest.trace);
      if after + RetryDelayMs < end {
        AttemptsLast(calls, req, after + RetryDelayMs, end, next);
        assert r.trace[|r.trace| - 1] == rest.trace[|rest.trace| - 1];
      } else {
        assert rest == Run(next, after + RetryDelayMs, []);
        assert r.trace == [record];
      }
    } else {
      assert r == Run(next, after, [record]);
    }
  }

  /** Attempt i (from 0) of a run: numbered on from the loop head's count, made with the
      same request, its outcome the classification of that attempt's call, and retryable
      unless it is the last. */
  lemma {:induction false} AttemptsRecords(calls: nat -> Call, req: Request, now: int, end: int, st: LoopState, i: nat)
    requires i < |Attempts(calls, req, now, end, st).trace|
    ensures var r := Attempts(calls, req, now, end, st);
      && r.trace[i].number == st.attempt + i + 1
      && r.trace[i].request == req
      && r.trace[i].outcome == Classify(calls(st.attempt + i).response)
      && (i < |r.trace| - 1 ==> r.trace[i].outcome.Retryable())
    decreases if now < end then end - now else 0
  {
    var call := calls(st.attempt);
    var o := Classify(call.response);
    var after := now + call.latencyMs;
    var next := LoopState(st.attempt + 1, o.Booked?, SubjectOf(o), BodyOf(o, req.checkData));
    if i > 0 {
      AttemptsRecords(calls, req, after + RetryDelayMs, end, next, i - 1);
    }
  }

  /** When the attempts of a run start: attempt i (from 0) no earlier than `now + i * 3.75 s`
      and before the window's end, each at least 3.75 s after the one before. */
  lemma {:induction false} AttemptsTiming(calls: nat -> Call, req: Request, now: int, end: int, st: LoopState)
    ensures var r := Attempts(calls, req, now, end, st);
      && (|r.trace| > 0 ==> (|r.trace| - 1) * RetryDelayMs < end - now)
      && (forall i :: 0 <= i < |r.trace| ==> now + i * RetryDelayMs <= r.trace[i].startedMs < end)
      && (forall i :: 0 < i < |r.trace| ==> r.trace[i].startedMs >= r.trace[i - 1].startedMs + RetryDelayMs)
    decreases if now < end then end - now else 0
  {
    if now < end && !st.successful {
      var call := calls(st.attempt);
      var o := Classify(call.response);
      var after := now + call.latencyMs;
      var next := LoopState(st.attempt + 1, o.Booked?, SubjectOf(o), BodyOf(o, req.checkData));
      if o.Retryable() && after < end {
        var rest := Attempts(calls, req, after + RetryDelayMs, end, next);
        var r := Attempts(calls, req, now, end, st);
        AttemptsTiming(calls, req, after + RetryDelayMs, end, next);
        assert forall i :: 0 < i < |r.trace| ==> r.trace[i] == rest.trace[i - 1];
      }
    }
  }

  /** In the source's 10 s window with its 3.75 s pause, one to three attempts are made. */
  lemma WindowAllowsAtMostThreeAttempts(calls: nat -> Call, req: Request, start: int)
    ensures 1 <= |Attempts(calls, req, start, start + WindowMs, Initial).trace| <= 3
  {
    AttemptsLast(calls, req, start, start + WindowMs, Initial);
    AttemptsTiming(calls, req, start, start + WindowMs, Initial);
  }

  /** The notification chosen after the loop, from the loop's final variables. */
  function FinalNotice(address: string, st: LoopState, slots: Json): Option<Email> {
    var text := SubjectText(st.subject);
    if address == "" then None
    else if st.successful then Some(Email(address, text, st.body))
    else if text == "" || Contains(text, InProgressMark) then
      Some(Email(address, FailureSubject, TimeoutBody(slots)))
    else Some(Email(address, text, st.body))
  }

  /** The notification a caller should expect for a last outcome: a success message with
      the order id; a definitive failure with its own message and code; otherwise the
      generic "not booked in time" message. */
  function ExpectedNotice(address: string, last: Outcome, slots: Json): Option<Email> {
    if address == "" then None
    else
      match last
      case Booked(id) => Some(Email(address, SuccessSubject, SuccessBody(slots, id)))
      case Refused(m, c) => Some(Email(address, FailureSubject, FailureBody(m, c, slots)))
      case _ => Some(Email(address, FailureSubject, TimeoutBody(slots)))
  }

  /** The conflict subject carries the in-progress mark. */
  lemma ConflictSubjectInProgress()
    ensures Contains(ConflictSubject, InProgressMark)
  {
    ContainsInfix(FailureSubject + " (", InProgressMark, ")");
  }

  /** So does the subject of a raised exception. */
  lemma ErrorSubjectInProgress()
    ensures Contains(ErrorSubject, InProgressMark)
  {
    ContainsInfix("场馆预约任务执行错误" + " (", InProgressMark, ")");
  }

  /** The definitive failure subject is non-empty and does not. */
  lemma FailureSubjectFinal()
    ensures FailureSubject != "" && !Contains(FailureSubject, InProgressMark)
  {
    NotContainsFirstChar(FailureSubject, InProgressMark);
  }

  /** The post-loop text choice, applied to the variables an outcome leaves behind. */
  lemma NoticeAfterOutcome(address: string, n: nat, last: Outcome, slots: Json)
    ensures FinalNotice(address, LoopState(n, last.Booked?, SubjectOf(last), BodyOf(last, slots)), slots)
            == ExpectedNotice(address, last, slots)
  {
    match last {
      case Booked(_) =>
      case Refused(_, _) => FailureSubjectFinal();
      case Conflict(_) => ConflictSubjectInProgress();
      case TransportError(_) => ErrorSubjectInProgress();
    }
  }

  /** The notification the source sends is the one ExpectedNotice describes. */
  lemma FinalNoticeMatchesOutcome(calls: nat -> Call, req: Request, start: int, address: string)
    ensures var r := Attempts(calls, req, start, start + WindowMs, Initial);
      |r.trace| >= 1 &&
      FinalNotice(address, r.state, req.checkData) == ExpectedNotice(address, r.trace[|r.trace| - 1].outcome, req.checkData)
  {
    AttemptsLast(calls, req, start, start + WindowMs, Initial);
    var r := Attempts(calls, req, start, start + WindowMs, Initial);
    NoticeAfterOutcome(address, |r.trace|, r.trace[|r.trace| - 1].outcome, req.checkData);
  }

  /** A definitive first response ends the loop after that one attempt. */
  lemma RefusalStopsAtOnce(calls: nat -> Call, req: Request, start: int)
    requires Classify(calls(0).response).Refused?
    ensures var r := Attempts(calls, req, start, start + WindowMs, Initial);
      |r.trace| == 1 && !r.state.successful && r.state.subject == FailureNotice
  {
  }

  /** When every call is retryable the window runs out, and the e-mail is the generic
      timeout message rather than the last transient one. */
  lemma AllRetryableTimesOut(calls: nat -> Call, req: Request, start: int, address: string)
    requires forall k: nat :: Classify(calls(k).response).Retryable()
    requires address != ""
    ensures var r := Attempts(calls, req, start, start + WindowMs, Initial);
      && !r.state.successful
      && r.clockMs >= start + WindowMs
      && FinalNotice(address, r.state, req.checkData) == Some(Email(address, FailureSubject, TimeoutBody(req.checkData)))
  {
    AttemptsLast(calls, req, start, start + WindowMs, Initial);
    var r := Attempts(calls, req, start, start + WindowMs, Initial);
    var last := r.trace[|r.trace| - 1].outcome;
    assert last == Classify(calls(|r.trace| - 1).response);
    NoticeAfterOutcome(address, |r.trace|, last, req.checkData);
  }

  /** Conflict, conflict, then success, each answered at once: the third attempt books, 7.5 s
      into the window, without waiting for the window to end. */
  lemma ConflictConflictBooked(start: int, req: Request, conflict: map<string, Json>, booked: map<string, Json>)
    requires Classify(Returned(conflict)).Conflict? && Classify(Returned(booked)).Booked?
    ensures var calls := (k: nat) => Call(Returned(if k < 2 then conflict else booked), 0);
      var r := Attempts(calls, req, start, start + WindowMs, Initial);
      && |r.trace| == 3
      && r.state.successful && r.state.attempt == 3
      && r.trace[2].startedMs == start + 2 * RetryDelayMs
      && r.trace[2].outcome == Booked(Get(booked, "resultdata"))
      && r.clockMs == start + 2 * RetryDelayMs
  {
    var calls := (k: nat) => Call(Returned(if k < 2 then conflict else booked), 0);
    var end := start + WindowMs;
    var c, b := Classify(Returned(conflict)), Classify(Returned(booked));
    var s1 := LoopState(1, false, SubjectOf(c), BodyOf(c, req.checkData));
    var s2 := LoopState(2, false, SubjectOf(c), BodyOf(c, req.checkData));
    var s3 := LoopState(3, true, SubjectOf(b), BodyOf(b, req.checkData));
    var r3 := Attempts(calls, req, start + 2 * RetryDelayMs, end, s2);
    assert r3 == Run(s3, start + 2 * RetryDelayMs, [AttemptRecord(3, start + 2 * RetryDelayMs, req, b)]);
    var r2 := Attempts(calls, req, start + RetryDelayMs, end, s1);
    assert r2 == Run(r3.state, r3.clockMs, [AttemptRecord(2, start + RetryDelayMs, req, c)] + r3.trace);
    var r1 := Attempts(calls, req, start, end, Initial);
    assert r1 == Run(r2.state, r2.clockMs, [AttemptRecord(1, start, req, c)] + r2.trace);
    ClassifyCases(booked, "");
  }

  function AsList(m: Option<Email>): seq<Email> {
    match m
    case None => []
    case Some(e) => [e]
  }

  /** The day offset sent to the endpoint: booking date minus today (negative only logged). */
  function DateAdd(bookingDate: Date, nowMs: int): int {
    DaysFromCivil(bookingDate) - DayNumber(nowMs)
  }

  /** At any time of day `today`, the offset is the number of calendar days from today to
      the booking date, so a booking for tomorrow is sent as 1. */
  lemma DateAddIsDayDifference(bookingDate: Date, today: Date, t: TimeOfDay)
    requires ValidTime(t)
    ensures DateAdd(bookingDate, LocalMs(today, t)) == DaysFromCivil(bookingDate) - DaysFromCivil(today)
    ensures ValidDate(today) && bookingDate == NextDay(today) ==> DateAdd(bookingDate, LocalMs(today, t)) == 1
  {
    DayOfLocalInstant(today, t);
    if ValidDate(today) {
      NextDayIsOneDayLater(today);
    }
  }

  /** What the environment supplies: the local clock at the call, the zone offset used by
      `timestamp()`, the `hash(json.dumps(payload, sort_keys=True))` of a payload, and the
      allocation endpoint. */
  datatype Env = Env(nowMs: int, zoneOffsetMs: int -> int, payloadHash: Json -> int, calls: nat -> Call)

  /** The loop run of one execution started at `env.nowMs`. */
  function ExecutionRun(slots: Json, bookingDate: Date, env: Env): Run {
    var start := env.nowMs + StartDelayMs;
    Attempts(env.calls, Request(slots, DateAdd(bookingDate, start), VenueNo), start, start + WindowMs, Initial)
  }

  /** The arguments APScheduler stores with a job. */
  datatype JobArgs = JobArgs(slots: Json, bookingDate: Date, email: string, jobId: string)

  datatype Job = Job(name: string, nextRun: Option<(Date, TimeOfDay)>, args: JobArgs)

  datatype JobInfo = JobInfo(id: string, name: string, nextRunTime: string, status: string)

  /** One row of `get_pending_jobs_info`. */
  function InfoOf(id: string, job: Job): JobInfo {
    var when := match job.nextRun
      case Some((d, t)) => DateTimeText(d, t)
      case None => NoRunTime;
    JobInfo(id, job.name, when, PendingStatus)
  }

  /** The id `add_booking_task` computes for a payload and a script date and time. */
  function TaskId(slots: Json, scriptDate: Date, scriptTime: TimeOfDay, env: Env): string {
    var runMs := LocalMs(scriptDate, scriptTime);
    JobId(runMs - env.zoneOffsetMs(runMs), env.payloadHash(slots))
  }

  class SchedulerManager {
    /** Whether the background scheduler runs. */
    var running: bool
    /** The job store: job id to job. */
    var jobs: map<string, Job>
    /** Every e-mail handed to `send_email`, oldest first. */
    var outbox: seq<Email>

    constructor ()
      ensures !running && jobs == map[] && outbox == []
    {
      running := false;
      jobs := map[];
      outbox := [];
    }

    method Start()
      modifies this
      ensures running
      ensures jobs == old(jobs) && outbox == old(outbox)
    {
      if !running {
        running := true;
      }
    }

    method Shutdown()
      modifies this
      ensures !running
      ensures jobs == old(jobs) && outbox == old(outbox)
    {
      if running {
        running := false;
      }
    }

    /** Removal reports whether the id was stored; afterwards it is not. */
    method RemoveJob(jobId: string) returns (removed: bool)
      modifies this
      ensures removed == (jobId in old(jobs))
      ensures jobs == old(jobs) - {jobId}
      ensures running == old(running) && outbox == old(outbox)
    {
      if jobId in jobs {
        jobs := jobs - {jobId};
        removed := true;
      } else {
        removed := false;
      }
    }

    /** One execution of a booking job. Runs the loop, sends at most one e-mail (none without an
        address), then removes the job's id from the store, a failed removal being ignored. */
    method ExecuteBookingJob(slots: Json, bookingDate: Date, email: string, jobId: Option<string>, env: Env)
      returns (run: Run)
      modifies this
      ensures run == ExecutionRun(slots, bookingDate, env)
      ensures outbox == old(outbox) + AsList(FinalNotice(email, run.state, slots))
      ensures jobs == if jobId.Some? && jobId.value != "" then old(jobs) - {jobId.value} else old(jobs)
      ensures running == old(running)
    {
      var start := env.nowMs + StartDelayMs;  // time.sleep(0.5)
      var dateAdd := DateAdd(bookingDate, start);
      run := RunAttempts(env.calls, Request(slots, dateAdd, VenueNo), start);
      var st := run.state;
      if email != "" {
        if st.successful {
          outbox := outbox + [Email(email, SubjectText(st.subject), st.body)];
        } else {
          var subject, body := SubjectText(st.subject), st.body;
          if subject == "" || Contains(subject, InProgressMark) {
            subject := FailureSubject;
            body := TimeoutBody(slots);
          }
          outbox := outbox + [Email(email, subject, body)];
        }
      }
      if jobId.Some? && jobId.value != "" {
        var _ := RemoveJob(jobId.value);
      }
    }

    /** Submitting a booking. A run time at or before now executes at once and leaves no job under the
        id; a later one stores exactly one job under the id, replacing any job already there. */
    method AddBookingTask(slots: Json, bookingDate: Date, scriptDate: Date, scriptTime: TimeOfDay,
                          email: string, env: Env)
      returns (jobId: string, ran: Option<Run>)
      modifies this
      ensures jobId == TaskId(slots, scriptDate, scriptTime, env)
      ensures running == old(running)
      ensures LocalMs(scriptDate, scriptTime) <= env.nowMs ==>
        && ran == Some(ExecutionRun(slots, bookingDate, env))
        && jobs == old(jobs) - {jobId}
        && outbox == old(outbox) + AsList(FinalNotice(email, ran.value.state, slots))
      ensures LocalMs(scriptDate, scriptTime) > env.nowMs ==>
        && ran == None
        && jobs == old(jobs)[jobId := Job(JobName(bookingDate, scriptTime), Some((scriptDate, scriptTime)),
                                          JobArgs(slots, bookingDate, email, jobId))]
        && |jobs| == |old(jobs)| + (if jobId in old(jobs) then 0 else 1)
        && outbox == old(outbox)
    {
      var runMs := LocalMs(scriptDate, scriptTime);
      jobId := JobId(runMs - env.zoneOffsetMs(runMs), env.payloadHash(slots));
      if runMs <= env.nowMs {
        var r := ExecuteBookingJob(slots, bookingDate, email, Some(jobId), env);
        ran := Some(r);
        return;
      }
      ran := None;
      var job := Job(JobName(bookingDate, scriptTime), Some((scriptDate, scriptTime)),
                     JobArgs(slots, bookingDate, email, jobId));
      if jobId in jobs {
        assert jobs[jobId := job].Keys == jobs.Keys;
      } else {
        assert jobs[jobId := job].Keys == jobs.Keys + {jobId};
      }
      jobs := jobs[jobId := job];
    }

    /** The listing of pending jobs: one row per stored job, each marked pending. */
    method GetPendingJobsInfo() returns (infos: seq<JobInfo>)
      ensures |infos| == |jobs|
      ensures forall i :: 0 <= i < |infos| ==> infos[i].id in jobs && infos[i] == InfoOf(infos[i].id, jobs[infos[i].id])
      ensures forall id :: id in jobs ==> exists i :: 0 <= i < |infos| && infos[i].id == id
      ensures forall i, j :: 0 <= i < j < |infos| ==> infos[i].id != infos[j].id
    {
      var store := jobs;
      infos := [];
      var remaining := store.Keys;
      ghost var ids: seq<string> := [];          // the id of each row so far
      ghost var row: map<string, nat> := map[];  // the row of each listed id
      while remaining != {}
        invariant remaining <= store.Keys
        invariant forall id :: id in row <==> id in store && id !in remaining
        invariant |infos| == |ids| == |row|
        invariant forall i :: 0 <= i < |ids| ==> ids[i] in row && row[ids[i]] == i
        invariant forall id :: id in row ==> row[id] < |ids| && ids[row[id]] == id
        invariant forall i :: 0 <= i < |ids| ==> infos[i] == InfoOf(ids[i], store[ids[i]])
        decreases remaining
      {
        var id :| id in remaining;
        row := row[id := |infos|];
        ids := ids + [id];
        infos := infos + [InfoOf(id, store[id])];
        remaining := remaining - {id};
      }
      assert row.Keys == store.Keys;
      forall id | id in store
        ensures exists i :: 0 <= i < |infos| && infos[i].id == id
      {
        assert infos[row[id]].id == id;
      }
    }
  }
}
