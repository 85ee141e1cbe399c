/** What a refusal says is so: the reason a handler gives was true of the row it read, or of the row at the
    instant of its answer, unless a statement of its own failed. */
module Refusals {
  import opened Prelude
  import opened World
  import opened Password
  import opened Rows
  import opened Totp
  import opened Recovery
  import opened History
  import opened Handlers
  import opened Server
  import opened Invariants

  /** was and seen are the rows at its first and at its latest read, now the row at its answer. A disable
      may answer that nothing is enabled when a later enrolment is. */
  ghost predicate RefusalTrue(w: World, f: Flight, reason: Reason, was: Row, seen: Row, now: Row) {
    MayAnswer(f.request, reason) && PassedToken(f, reason) &&
    match reason
    case AlreadyEnabled => now.enabled || (f.request.SetupRequest? && f.failed)
    case NotEnabled =>
      || !now.enabled || f.unread || (f.request.EnableRequest? && f.failed)
      || (f.request.DisableRequest? && (f.failed || (was.enabled && now.secret != was.secret)))
    case CodeInvalid => CodeRefused(w, f, was, seen, now)
    case PasswordInvalid =>
      (match f.request
       case LoginRequest(password) => f.unread || !VerifyPassword(w.pw, was.password, password)
       case PasswordRequest(oldPassword, _) => !VerifyPassword(w.pw, was.password, oldPassword)
       case _ => false)
    case TokenRejected =>
      (match f.request
       case VerifyRequest(token, _, _) => !LivePreAuth(token, f.startedAt)
       case RefreshRequest(token) => !LiveRefresh(token, f.startedAt)
       case _ => false)
    case InvalidParams => Malformed(f.request)
    case UserNotExist => f.unread
    case TooManyRequests => true
    case ServiceError => if f.request.PasswordRequest? then f.failed else f.broken
  }

  /** Every other refusal comes after the token was accepted. */
  predicate PassedToken(f: Flight, reason: Reason) {
    && (f.request.VerifyRequest? && !reason.TokenRejected? ==> LivePreAuth(f.request.token, f.startedAt))
    && (f.request.RefreshRequest? && !reason.TokenRejected? ==> LiveRefresh(f.request.token, f.startedAt))
  }

  /** The reasons each route has. */
  predicate MayAnswer(request: Request, reason: Reason) {
    match request
    case LoginRequest(_) =>
      reason in {TooManyRequests, InvalidParams, UserNotExist, PasswordInvalid, ServiceError}
    case VerifyRequest(_, _, _) =>
      reason in {TokenRejected, NotEnabled, TooManyRequests, CodeInvalid, InvalidParams, ServiceError}
    case SetupRequest(_) =>
      reason in {UserNotExist, AlreadyEnabled, InvalidParams, TooManyRequests, CodeInvalid, ServiceError}
    case EnableRequest(_) =>
      reason in {UserNotExist, AlreadyEnabled, NotEnabled, TooManyRequests, CodeInvalid, ServiceError}
    case DisableRequest(_, _) => reason in {UserNotExist, NotEnabled, InvalidParams, TooManyRequests, CodeInvalid}
    case PasswordRequest(_, _) => reason in {InvalidParams, UserNotExist, PasswordInvalid, ServiceError}
    case RefreshRequest(_) => reason in {TokenRejected, ServiceError}
  }

  /** The factor was wrong for the row as read; or it was right, and by the time it was to be spent another
      request had taken it, or the statement failed. */
  ghost predicate CodeRefused(w: World, f: Flight, was: Row, seen: Row, now: Row) {
    match f.request
    case VerifyRequest(_, code, recovery) =>
      if code != "" then
        || VerifyTOTP(w, was.secret, code, was.lastStep, f.checkedAt).None?
        || f.failed
        || exists step :: Overtaken(w, code, was, now, step)
      else f.failed || FirstMatch(w, seen.List(), recovery).None? || now.codes != seen.codes
    case SetupRequest(password) => !VerifyPassword(w.pw, was.password, password)
    case EnableRequest(code) => VerifyTOTP(w, was.secret, code, 0, f.checkedAt).None?
    case DisableRequest(_, _) => !FactorGiven(w, f, was)
    case _ => false
  }

  ghost predicate Overtaken(w: World, code: string, was: Row, now: Row, step: int) {
    Acceptable(w, was.secret, code, was.lastStep, step) && step <= now.lastStep
  }

  predicate Malformed(request: Request) {
    match request
    case LoginRequest(password) => password == ""
    case VerifyRequest(_, code, recovery) => (code == "") == (recovery == "")
    case SetupRequest(password) => password == ""
    case DisableRequest(code, password) => (code == "") == (password == "")
    case PasswordRequest(oldPassword, newPassword) => oldPassword == "" || newPassword == ""
    case _ => false
  }

  /** A request is not malformed where its factor is checked, nor where it is granted; and one that could
      not read the row is refused. */
  predicate WellMade(f: Flight) {
    && (f.unread ==> f.thread.Answered? && f.thread.answer.Failure?)
    && match f.thread
       case Start(_) => true
       case VerifyLimit(_, _, _) => true
       case Answered(answer) => answer.Failure? || !Malformed(f.request)
       case _ => !Malformed(f.request)
  }

  ghost predicate Truthful(w: World, f: Flight, was: Row, seen: Row, now: Row) {
    && WellMade(f)
    && (f.thread.Answered? && f.thread.answer.Failure? ==>
          RefusalTrue(w, f, f.thread.answer.reason, was, seen, now))
  }

  /** An enable that found its write lost, or says that nothing is enabled of a row where it had read a
      secret: another request touched the enrolment it read, or a statement failed. */
  ghost predicate LostToAnother(row0: Row, log: seq<Entry>, f: Flight)
    requires f.first <= |log|
  {
    f.request.EnableRequest? && (f.thread.EnableReread? || RefusesSecret(f, RowAt(row0, log, f.first))) ==>
      f.faulted || TouchedWithin(log, f.first, f.end)
  }

  predicate RefusesSecret(f: Flight, was: Row) {
    f.thread == Answered(Failure(NotEnabled)) && was.secret != ""
  }

  ghost predicate TouchedWithin(log: seq<Entry>, k: nat, m: nat) {
    exists i :: k <= i < m && i < |log| && TouchesEnrolment(log[i].stmt)
  }

  ghost predicate TruthfulAt(w: World, row0: Row, log: seq<Entry>, f: Flight) {
    && f.first <= |log| && f.last <= |log| && f.end <= |log|
    && Truthful(w, f, RowAt(row0, log, f.first), RowAt(row0, log, f.last), RowAt(row0, log, f.end))
    && LostToAnother(row0, log, f)
  }

  ghost predicate AllTruthful(w: World, row0: Row, s: State) {
    forall i :: 0 <= i < |s.flights| ==> TruthfulAt(w, row0, s.log, s.flights[i])
  }

  // ---- one step ----

  /** The row once the step is taken. */
  function NowAfter(w: World, s: State, f: Flight, inp: Input): Row
    requires WellFormed(f.thread) && GoodInput(inp)
  {
    Advance(w, f.thread, ViewOf(s), inp).1
  }

  ghost predicate StepTruthful(w: World, s: State, f: Flight, inp: Input, was: Row, seen: Row)
    requires WellFormed(f.thread) && GoodInput(inp)
  {
    Truthful(w, Flew(w, s, f, inp), WasAfter(s, f, was), SeenAfter(w, s, f, inp, seen), NowAfter(w, s, f, inp))
  }

  lemma BeginTruthful(w: World, s: State, f: Flight, inp: Input, was: Row, seen: Row)
    requires GoodInput(inp) && f.thread == Start(f.request) && WellMade(f)
    ensures StepTruthful(w, s, f, inp, was, seen)
  {
    hide VerifyPassword, NeedsRehash, HashPassword, VerifyTOTP, FirstMatch;
  }

  lemma VerifyTruthful(w: World, s: State, f: Flight, inp: Input, was: Row, seen: Row)
    requires WellFormed(f.thread) && GoodInput(inp) && ThreadFacts(w, f, was, seen) && WellMade(f)
    requires InVerify(f.thread) || f.thread.VerifyList?
    ensures StepTruthful(w, s, f, inp, was, seen)
  {
    hide VerifyPassword, NeedsRehash, HashPassword, VerifyTOTP, FirstMatch, Acceptable;
    if f.thread.VerifyConsume? && s.row.lastStep >= f.thread.step {
      assert Overtaken(w, f.request.code, was, s.row, f.thread.step);
    }
  }

  lemma EnrolmentTruthful(w: World, s: State, f: Flight, inp: Input, was: Row, seen: Row)
    requires GoodInput(inp) && ThreadFacts(w, f, was, seen) && WellMade(f)
    requires InEnrolment(f.thread)
    ensures StepTruthful(w, s, f, inp, was, seen)
  {
    hide VerifyPassword, NeedsRehash, HashPassword, VerifyTOTP, FromOneDraw, PlainCodes, HashesOf, Distinct;
  }

  lemma OtherTruthful(w: World, s: State, f: Flight, inp: Input, was: Row, seen: Row)
    requires GoodInput(inp) && ThreadFacts(w, f, was, seen) && WellMade(f)
    requires InLogin(f.thread) || f.thread.PasswordWrite?
             || f.thread.DisableLimit? || f.thread.DisableCheck? || f.thread.DisableWrite?
    ensures StepTruthful(w, s, f, inp, was, seen)
  {
    hide VerifyPassword, NeedsRehash, HashPassword, VerifyTOTP;
  }

  lemma StepIsTruthful(w: World, s: State, f: Flight, inp: Input, was: Row, seen: Row)
    requires WellFormed(f.thread) && !f.thread.Answered? && GoodInput(inp) && ThreadFacts(w, f, was, seen)
    requires WellMade(f)
    ensures StepTruthful(w, s, f, inp, was, seen)
  {
    hide StepTruthful, VerifyPassword, NeedsRehash, VerifyTOTP, FromOneDraw;
    if f.thread.Start? {
      BeginTruthful(w, s, f, inp, was, seen);
    } else if InVerify(f.thread) || f.thread.VerifyList? {
      VerifyTruthful(w, s, f, inp, was, seen);
    } else if InEnrolment(f.thread) {
      EnrolmentTruthful(w, s, f, inp, was, seen);
    } else {
      OtherTruthful(w, s, f, inp, was, seen);
    }
  }

  // ---- every run ----

  lemma TouchedStays(log: seq<Entry>, more: seq<Entry>, k: nat, m: nat, n: nat)
    requires m <= n
    ensures TouchedWithin(log, k, m) ==> TouchedWithin(log + more, k, n)
  {
    if TouchedWithin(log, k, m) {
      var i :| k <= i < m && i < |log| && TouchesEnrolment(log[i].stmt);
      assert (log + more)[i] == log[i];
    }
  }

  lemma AppendKeepsTruthful(w: World, row0: Row, log: seq<Entry>, e: Entry, f: Flight)
    requires TruthfulAt(w, row0, log, f)
    ensures TruthfulAt(w, row0, log + [e], f)
  {
    hide Replay, RefusalTrue;
    assert (log + [e])[..f.first] == log[..f.first];
    assert (log + [e])[..f.last] == log[..f.last] && (log + [e])[..f.end] == log[..f.end];
    TouchedStays(log, [e], f.first, f.end, f.end);
  }

  lemma FlewAndNow(w: World, s: State, id: nat, inp: Input)
    requires id < |s.flights| && WellFormed(s.flights[id].thread) && GoodInput(inp)
    ensures var f, t := s.flights[id], ProceedWith(w, s, id, inp);
            |t.flights| == |s.flights| && t.flights[id] == Flew(w, s, f, inp) && t.row == NowAfter(w, s, f, inp)
    ensures ProceedWith(w, s, id, inp).flights[id].end == |ProceedWith(w, s, id, inp).log|
  {
    hide Resume, Landed, StatementOf;
  }

  lemma MoverIsTruthful(w: World, row0: Row, s: State, id: nat, inp: Input)
    requires LawfulWorld(w) && Inv(w, row0, s) && Enabled(w, s, Proceed(id, inp))
    requires TruthfulAt(w, row0, s.log, s.flights[id])
    ensures var t := ProceedWith(w, s, id, inp); var g := t.flights[id];
            && g.first <= |t.log| && g.last <= |t.log| && g.end <= |t.log|
            && Truthful(w, g, RowAt(row0, t.log, g.first), RowAt(row0, t.log, g.last), RowAt(row0, t.log, g.end))
  {
    hide Resume, RefusalTrue, ThreadFacts, AdmissibleOn, Draws, Replay, LawfulWorld, Flew, NowAfter, ProceedWith, Legal,
         NewlyPlaced, NewlyIssued, WasAfter, SeenAfter, WellMade, LostToAnother;
    var f, t := s.flights[id], ProceedWith(w, s, id, inp);
    assert FlightOk(w, row0, s.log, f);
    ProceedLog(w, row0, s, id, inp);
    MarksAfter(w, row0, s, f, inp, t.log);
    StepIsTruthful(w, s, f, inp, RowAt(row0, s.log, f.first), RowAt(row0, s.log, f.last));
    FlewAndNow(w, s, id, inp);
    assert t.log[..|t.log|] == t.log;
  }

  /** An enable whose write is lost without a fault finds its enrolment touched. */
  lemma LostIsTouched(w: World, row0: Row, s: State, id: nat, inp: Input)
    requires LawfulWorld(w) && Inv(w, row0, s) && Enabled(w, s, Proceed(id, inp)) && s.flights[id].thread.EnableWrite?
    requires s.flights[id].first <= |s.log|
    requires !Landed(w, s.flights[id].thread, s.row, inp)
    ensures inp.fault || TouchedWithin(s.log, s.flights[id].first, |s.log|)
  {
    hide AdmissibleOn, Draws, VerifyPassword, NeedsRehash, FromOneDraw, Replay, Acceptable;
    var f := s.flights[id];
    assert FlightOk(w, row0, s.log, f);
    SameEnrolmentIffUntouched(w, row0, s.log, f.first);
  }

  /** What a step of an enable makes of it. */
  lemma EnableSteps(w: World, s: State, f: Flight, inp: Input)
    requires WellFormed(f.thread) && GoodInput(inp) && !f.thread.Answered? && f.request.EnableRequest?
    requires f.thread.Start? ==> f.thread.request == f.request
    requires f.thread.Start? || InEnrolment(f.thread)
    ensures var g := Flew(w, s, f, inp);
            && (g.thread.EnableReread? ==> f.thread.EnableWrite? && !Landed(w, f.thread, s.row, inp))
            && (g.thread == Answered(Failure(NotEnabled)) ==>
                  f.thread.EnableReread? || (f.thread.Start? && (inp.fault || s.row.secret == "")))
  {
    hide VerifyPassword, NeedsRehash, HashPassword, VerifyTOTP, PlainCodes, HashesOf;
  }

  lemma EnableFlies(w: World, f: Flight, was: Row, seen: Row)
    requires ThreadFacts(w, f, was, seen) && f.request.EnableRequest? && !f.thread.Answered?
    ensures f.thread.Start? || InEnrolment(f.thread)
    ensures f.thread.Start? ==> f.thread.request == f.request
  {
    hide Acceptable, FromOneDraw, VerifyPassword, FactorGiven;
  }

  lemma MoverIsLost(w: World, row0: Row, s: State, id: nat, inp: Input)
    requires LawfulWorld(w) && Inv(w, row0, s) && Enabled(w, s, Proceed(id, inp))
    requires TruthfulAt(w, row0, s.log, s.flights[id])
    ensures var t := ProceedWith(w, s, id, inp);
            t.flights[id].first <= |t.log| && LostToAnother(row0, t.log, t.flights[id])
  {
    hide Resume, ThreadFacts, AdmissibleOn, Draws, Replay, LawfulWorld, ProceedWith, Legal, NewlyPlaced, NewlyIssued,
         WasAfter, SeenAfter, Truthful, TouchedWithin, Landed, StatementOf, FreshDraw;
    var f, t := s.flights[id], ProceedWith(w, s, id, inp);
    assert FlightOk(w, row0, s.log, f);
    ProceedLog(w, row0, s, id, inp);
    MarksAfter(w, row0, s, f, inp, t.log);
    FlewAndNow(w, s, id, inp);
    if f.request.EnableRequest? {
      EnableFlies(w, f, RowAt(row0, s.log, f.first), RowAt(row0, s.log, f.last));
      EnableSteps(w, s, f, inp);
      var more := t.log[|s.log|..];
      assert t.log == s.log + more;
      if f.thread.EnableWrite? && !Landed(w, f.thread, s.row, inp) {
        LostIsTouched(w, row0, s, id, inp);
        TouchedStays(s.log, more, f.first, |s.log|, t.flights[id].end);
      } else if f.thread.EnableReread? {
        TouchedStays(s.log, more, f.first, f.end, t.flights[id].end);
      } else if f.thread.Start? {
        StartedAfter(s, f);
      }
    }
  }

  lemma StartedAfter(s: State, f: Flight)
    requires f.thread.Start?
    ensures forall was :: WasAfter(s, f, was) == s.row
  {
  }

  lemma BothAreTruthful(w: World, row0: Row, log: seq<Entry>, f: Flight)
    requires f.first <= |log| && f.last <= |log| && f.end <= |log| && LostToAnother(row0, log, f)
    requires Truthful(w, f, RowAt(row0, log, f.first), RowAt(row0, log, f.last), RowAt(row0, log, f.end))
    ensures TruthfulAt(w, row0, log, f)
  {
  }

  lemma ProceedKeepsTruthful(w: World, row0: Row, s: State, id: nat, inp: Input)
    requires LawfulWorld(w) && Inv(w, row0, s) && AllTruthful(w, row0, s) && Enabled(w, s, Proceed(id, inp))
    ensures AllTruthful(w, row0, ProceedWith(w, s, id, inp))
  {
    hide TruthfulAt, Inv, Resume, FreshDraw, LawfulWorld, StatementOf;
    var f, t := s.flights[id], ProceedWith(w, s, id, inp);
    assert TruthfulAt(w, row0, s.log, f);
    MoverIsTruthful(w, row0, s, id, inp);
    MoverIsLost(w, row0, s, id, inp);
    BothAreTruthful(w, row0, t.log, t.flights[id]);
    forall i | 0 <= i < |t.flights| && i != id
      ensures TruthfulAt(w, row0, t.log, t.flights[i])
    {
      if Landed(w, f.thread, s.row, inp) {
        AppendKeepsTruthful(w, row0, s.log, EntryOf(w, s, id, inp), s.flights[i]);
      }
    }
  }

  lemma NextKeepsTruthful(w: World, row0: Row, s: State, a: Action)
    requires LawfulWorld(w) && Inv(w, row0, s) && AllTruthful(w, row0, s) && Enabled(w, s, a)
    ensures AllTruthful(w, row0, Next(w, s, a))
  {
    hide Inv, HashPassword, ProceedWith, RefusalTrue, LawfulWorld, Replay;
    var t := Next(w, s, a);
    match a {
      case Arrive(request) =>
        assert forall i :: 0 <= i < |s.flights| ==> TruthfulAt(w, row0, s.log, s.flights[i]);
      case Proceed(id, inp) => ProceedKeepsTruthful(w, row0, s, id, inp);
      case Tick(_, _) =>
      case ResetByShell(password, salt) =>
        var e := Entry(None, Reset(HashPassword(w.pw, password, salt)), Typed(password));
        forall i | 0 <= i < |s.flights|
          ensures TruthfulAt(w, row0, t.log, t.flights[i])
        {
          AppendKeepsTruthful(w, row0, s.log, e, s.flights[i]);
        }
    }
  }

  lemma {:induction false} TruthHolds(w: World, row0: Row, wall: int, mono: real, run: seq<Action>)
    requires LawfulWorld(w) && RowOk(row0) && ValidRun(w, Initial(row0, wall, mono), run)
    ensures AllTruthful(w, row0, After(w, Initial(row0, wall, mono), run))
  {
    if run != [] {
      var front := run[..|run| - 1];
      Reachable(w, row0, wall, mono, front);
      TruthHolds(w, row0, wall, mono, front);
      NextKeepsTruthful(w, row0, After(w, Initial(row0, wall, mono), front), run[|run| - 1]);
    }
  }
}
