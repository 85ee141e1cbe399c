/** What every step of Server keeps: the row is the replay of its history, the history is legal, and
    every handler in flight remembers what it read. */
module Invariants {
  import opened Prelude
  import opened World
  import opened Password
  import opened Rows
  import opened Totp
  import opened Recovery
  import opened History
  import opened Handlers
  import opened Server

  // ---- what a handler knows; was is the row at its first read, seen at its latest ----

  ghost predicate InWindow(step: int, checkedAt: int) {
    step >= 1 && CurrentStep(checkedAt) - 1 <= step <= CurrentStep(checkedAt) + 1
  }

  ghost predicate IsDraw(w: World, raws: seq<seq<Byte>>, salts: seq<seq<Byte>>,
                         plain: seq<string>, hashes: seq<string>)
  {
    && |raws| == |salts| == CODES && (forall i :: 0 <= i < CODES ==> |raws[i]| == RAW_BYTES)
    && plain == PlainCodes(raws) && hashes == HashesOf(w, raws, salts)
  }

  /** The hashes are those of the codes: both lists come from one draw of random bits and salts. */
  ghost predicate FromOneDraw(w: World, plain: seq<string>, hashes: seq<string>) {
    exists raws, salts :: IsDraw(w, raws, salts, plain, hashes)
  }

  /** What /2fa/verify and /refresh accept: their own key, issuer and time. */
  predicate LivePreAuth(t: Token, now: int) {
    t.key == PreAuthKey && t.issuer == "2fa" && now < t.expires
  }

  predicate LiveRefresh(t: Token, now: int) {
    t.key == SessionKey && t.issuer == "refresh" && now < t.expires
  }

  ghost predicate VerifyFacts(f: Flight, user: Row, was: Row) {
    f.request.VerifyRequest? && user == was && was.enabled && was.secret != ""
    && LivePreAuth(f.request.token, f.startedAt)
  }

  ghost predicate SetupFacts(f: Flight, user: Row, was: Row) {
    f.request.SetupRequest? && user == was && !was.enabled
  }

  ghost predicate EnableFacts(f: Flight, user: Row, was: Row) {
    f.request.EnableRequest? && user == was && !was.enabled && was.secret != ""
  }

  ghost predicate DisableFacts(f: Flight, user: Row, was: Row) {
    f.request.DisableRequest? && user == was && was.enabled && was.secret != ""
  }

  /** What /2fa/disable asks for: a current code if there is one, otherwise the password. */
  ghost predicate FactorGiven(w: World, f: Flight, was: Row)
    requires f.request.DisableRequest?
  {
    if f.request.code != "" then VerifyTOTP(w, was.secret, f.request.code, was.lastStep, f.checkedAt).Some?
    else VerifyPassword(w.pw, was.password, f.request.password)
  }

  ghost predicate LoginFacts(w: World, f: Flight, was: Row) {
    f.request.LoginRequest? && VerifyPassword(w.pw, was.password, f.request.password)
  }

  ghost predicate AnswerFacts(w: World, f: Flight, answer: Answer, was: Row, seen: Row) {
    match f.request
    case LoginRequest(_) =>
      (answer.Session? && LoginFacts(w, f, was) && !seen.enabled
        && (was.secret != "" && !was.enabled ==> f.first <= f.tried <= f.last))
      || (answer.PreAuth? && LoginFacts(w, f, was) && seen.enabled && answer.token.key == PreAuthKey)
      || answer.Failure?
    case VerifyRequest(token, _, _) =>
      (answer.Session? && was.enabled && was.secret != "" && LivePreAuth(token, f.startedAt)) || answer.Failure?
    case SetupRequest(_) => answer.PendingSecret? || answer.Failure?
    case EnableRequest(_) => answer.RecoveryCodes? || answer.Failure?
    case DisableRequest(_, _) => answer.Success? || answer.Failure?
    case PasswordRequest(_, _) => answer.Success? || answer.Failure?
    case RefreshRequest(token) => (answer.Session? && LiveRefresh(token, f.startedAt)) || answer.Failure?
  }

  ghost predicate ThreadFacts(w: World, f: Flight, was: Row, seen: Row) {
    match f.thread
    case Start(request) => request == f.request
    case VerifyLimit(user, code, recovery) =>
      VerifyFacts(f, user, was) && code == f.request.code && recovery == f.request.recovery
    case VerifyCheck(user, code) => VerifyFacts(f, user, was) && code == f.request.code != ""
    case VerifyConsume(user, step) =>
      VerifyFacts(f, user, was) && InWindow(step, f.checkedAt) && f.request.code != ""
      && Acceptable(w, was.secret, f.request.code, was.lastStep, step)
    case VerifyList(user, recovery) =>
      VerifyFacts(f, user, was) && recovery == f.request.recovery != "" && f.request.code == ""
    case VerifySwap(user, prev, index) =>
      VerifyFacts(f, user, was) && prev == seen.List() && index < |prev|
      && f.request.code == "" && f.request.recovery != "" && w.bcryptMatches(prev[index], Normalise(f.request.recovery))
    case SetupLimit(user, password) => SetupFacts(f, user, was) && password == f.request.password
    case SetupCheck(user, password) => SetupFacts(f, user, was) && password == f.request.password
    case SetupWrite(user, secret) =>
      SetupFacts(f, user, was) && secret != "" && VerifyPassword(w.pw, was.password, f.request.password)
    case EnableLimit(user, code) => EnableFacts(f, user, was) && code == f.request.code
    case EnableCheck(user, code) => EnableFacts(f, user, was) && code == f.request.code
    case EnableWrite(user, step, plain, hashes) =>
      EnableFacts(f, user, was) && InWindow(step, f.checkedAt) && FromOneDraw(w, plain, hashes) && Distinct(hashes)
      && Acceptable(w, was.secret, f.request.code, 0, step)
    case EnableReread => f.request.EnableRequest?
    case DisableLimit(user, code, password) =>
      DisableFacts(f, user, was) && code == f.request.code && password == f.request.password
    case DisableCheck(user, code, password) =>
      DisableFacts(f, user, was) && code == f.request.code && password == f.request.password
    case DisableWrite(user) => DisableFacts(f, user, was) && FactorGiven(w, f, was)
    case LoginSwap(user, password) =>
      LoginFacts(w, f, was) && user == was == seen && password == f.request.password != ""
      && NeedsRehash(w.pw, was.password)
    case LoginClear(user) => LoginFacts(w, f, was) && user == was && !was.enabled && was.secret != ""
    case LoginReread => LoginFacts(w, f, was) && f.first <= f.tried
    case PasswordWrite(hash, password) =>
      f.request.PasswordRequest? && password == f.request.newPassword && FreshHash(w, hash, Typed(password))
      && VerifyPassword(w.pw, was.password, f.request.oldPassword)
    case Answered(answer) => AnswerFacts(w, f, answer, was, seen)
  }

  ghost predicate FlightOk(w: World, row0: Row, log: seq<Entry>, f: Flight) {
    && WellFormed(f.thread) && RequestOk(w, f.request)
    && f.first <= f.last <= |log| && f.tried <= |log| && f.end <= |log|
    && (f.thread.Answered? ==> f.last <= f.end)
    && ThreadFacts(w, f, RowAt(row0, log, f.first), RowAt(row0, log, f.last))
  }

  // ---- fresh secrets and hashes on their way to the row ----

  /** A draw waiting to be written was drawn, and has not been in the row. */
  ghost predicate StillFresh(t: Thread, secrets: set<string>, hashes: set<string>,
                             placed: set<string>, issued: set<string>)
  {
    && (t.SetupWrite? ==> t.secret in secrets && t.secret !in placed)
    && (t.EnableWrite? ==> forall h :: h in t.hashes ==> h in hashes && h !in issued)
  }

  /** Two handlers never hold the same draw. */
  ghost predicate Apart(t: Thread, u: Thread) {
    && (t.SetupWrite? && u.SetupWrite? ==> t.secret != u.secret)
    && (t.EnableWrite? && u.EnableWrite? ==> forall h :: h in t.hashes ==> h !in u.hashes)
  }

  ghost predicate Draws(flights: seq<Flight>, secrets: set<string>, hashes: set<string>,
                        placed: set<string>, issued: set<string>)
  {
    && placed <= secrets && issued <= hashes
    && (forall i :: 0 <= i < |flights| ==> StillFresh(flights[i].thread, secrets, hashes, placed, issued))
    && (forall i, j :: 0 <= i < |flights| && 0 <= j < |flights| && i != j ==>
          Apart(flights[i].thread, flights[j].thread))
  }

  ghost predicate DrawsOk(row0: Row, s: State) {
    Draws(s.flights, s.secrets, s.hashes, Placed(row0, s.log), Issued(row0, s.log))
  }

  ghost predicate FlightsOk(w: World, row0: Row, log: seq<Entry>, flights: seq<Flight>) {
    forall i :: 0 <= i < |flights| ==> FlightOk(w, row0, log, flights[i])
  }

  ghost predicate Inv(w: World, row0: Row, s: State) {
    && RowOk(row0)
    && s.row == Replay(row0, s.log)
    && Legal(w, row0, s.log)
    && FlightsOk(w, row0, s.log, s.flights)
    && DrawsOk(row0, s)
  }

  // ---- appending to the history ----

  lemma AppendReplays(w: World, row0: Row, log: seq<Entry>, e: Entry)
    requires Legal(w, row0, log) && Admissible(w, row0, log, e)
    ensures Legal(w, row0, log + [e])
    ensures Replay(row0, log + [e]) == Write(Replay(row0, log), e.stmt)
    ensures Placed(row0, log + [e]) == Placed(row0, log) + (if e.stmt.SetPending? then {e.stmt.secret} else {})
    ensures Issued(row0, log + [e]) == Issued(row0, log) + (if e.stmt.Enable? then set h | h in e.stmt.hashes else {})
  {
    assert Front(log + [e]) == log;
  }

  lemma AppendKeepsFlight(w: World, row0: Row, log: seq<Entry>, e: Entry, f: Flight)
    requires FlightOk(w, row0, log, f)
    ensures FlightOk(w, row0, log + [e], f)
  {
    assert (log + [e])[..f.first] == log[..f.first];
    assert (log + [e])[..f.last] == log[..f.last];
  }

  // ---- one step of one handler: what it knows afterwards ----

  function Flew(w: World, s: State, f: Flight, inp: Input): Flight
    requires WellFormed(f.thread) && GoodInput(inp)
  {
    var landed := Landed(w, f.thread, s.row, inp);
    Flown(f, Resume(w, f.thread, ViewOf(s), inp, landed), s, inp, landed)
  }

  lemma LoginBegins(w: World, s: State, f: Flight, inp: Input)
    requires f.thread == Start(f.request) && f.request.LoginRequest? && GoodInput(inp)
    ensures WellFormed(Flew(w, s, f, inp).thread) && ThreadFacts(w, Flew(w, s, f, inp), s.row, s.row)
  {
    hide VerifyPassword, NeedsRehash, HashPassword, VerifyTOTP, FirstMatch;
  }

  lemma PasswordBegins(w: World, s: State, f: Flight, inp: Input)
    requires LawfulWorld(w) && RequestOk(w, f.request)
    requires f.thread == Start(f.request) && f.request.PasswordRequest? && GoodInput(inp)
    ensures WellFormed(Flew(w, s, f, inp).thread) && ThreadFacts(w, Flew(w, s, f, inp), s.row, s.row)
  {
    hide VerifyPassword, NeedsRehash, HashPassword, VerifyTOTP, FirstMatch;
    HashVerifies(w.pw, f.request.newPassword, inp.passwordSalt);
  }

  lemma OthersBegin(w: World, s: State, f: Flight, inp: Input)
    requires RowOk(s.row)
    requires f.thread == Start(f.request) && !f.request.LoginRequest? && !f.request.PasswordRequest? && GoodInput(inp)
    ensures WellFormed(Flew(w, s, f, inp).thread) && ThreadFacts(w, Flew(w, s, f, inp), s.row, s.row)
  {
    hide VerifyPassword, NeedsRehash, HashPassword, VerifyTOTP, FirstMatch;
  }

  lemma VerifyKnows(w: World, s: State, f: Flight, inp: Input, was: Row, seen: Row)
    requires WellFormed(f.thread) && GoodInput(inp) && RowOk(was) && ThreadFacts(w, f, was, seen)
    requires f.thread.VerifyLimit? || f.thread.VerifyCheck? || f.thread.VerifyConsume? || f.thread.VerifySwap?
    ensures WellFormed(Flew(w, s, f, inp).thread) && ThreadFacts(w, Flew(w, s, f, inp), was, seen)
  {
    hide VerifyPassword, NeedsRehash, HashPassword, FirstMatch;
  }

  lemma VerifyListKnows(w: World, s: State, f: Flight, inp: Input, was: Row, seen: Row)
    requires GoodInput(inp) && f.thread.VerifyList? && ThreadFacts(w, f, was, seen)
    ensures WellFormed(Flew(w, s, f, inp).thread) && ThreadFacts(w, Flew(w, s, f, inp), was, s.row)
  {
  }

  lemma SetupKnows(w: World, s: State, f: Flight, inp: Input, was: Row, seen: Row)
    requires GoodInput(inp) && FreshDraw(w, s, f.thread, inp) && ThreadFacts(w, f, was, seen)
    requires f.thread.SetupLimit? || f.thread.SetupCheck? || f.thread.SetupWrite?
    ensures ThreadFacts(w, Flew(w, s, f, inp), was, seen)
  {
  }

  lemma HashCount(w: World, raws: seq<seq<Byte>>, salts: seq<seq<Byte>>)
    requires |raws| == |salts| && forall i :: 0 <= i < |raws| ==> |raws[i]| == RAW_BYTES
    ensures |HashesOf(w, raws, salts)| == |PlainCodes(raws)| == |raws|
  {
  }

  lemma EnableKnows(w: World, s: State, f: Flight, inp: Input, was: Row, seen: Row)
    requires LawfulWorld(w) && GoodInput(inp) && FreshDraw(w, s, f.thread, inp) && ThreadFacts(w, f, was, seen)
    requires f.thread.EnableLimit? || f.thread.EnableCheck? || f.thread.EnableWrite?
    ensures WellFormed(Flew(w, s, f, inp).thread)
    ensures ThreadFacts(w, Flew(w, s, f, inp), was, seen)
  {
    hide VerifyPassword, PlainCodes, HashesOf, NeedsRehash, HashPassword, FirstMatch;
    assert IsDraw(w, inp.raws, inp.salts, PlainCodes(inp.raws), HashesOf(w, inp.raws, inp.salts));
    HashCount(w, inp.raws, inp.salts);
  }

  lemma DisableKnows(w: World, s: State, f: Flight, inp: Input, was: Row, seen: Row)
    requires GoodInput(inp) && ThreadFacts(w, f, was, seen)
    requires f.thread.DisableLimit? || f.thread.DisableCheck? || f.thread.DisableWrite? || f.thread.PasswordWrite?
    ensures ThreadFacts(w, Flew(w, s, f, inp), was, seen)
  {
  }

  lemma LoginSwapKnows(w: World, s: State, f: Flight, inp: Input, was: Row, seen: Row)
    requires GoodInput(inp) && f.thread.LoginSwap? && ThreadFacts(w, f, was, seen)
    ensures ThreadFacts(w, Flew(w, s, f, inp), was, seen)
  {
  }

  lemma LoginClearKnows(w: World, s: State, f: Flight, inp: Input, was: Row, seen: Row)
    requires GoodInput(inp) && f.thread.LoginClear? && ThreadFacts(w, f, was, seen) && f.first <= |s.log|
    ensures ThreadFacts(w, Flew(w, s, f, inp), was, if Landed(w, f.thread, s.row, inp) then s.row else seen)
  {
  }

  lemma RereadKnows(w: World, s: State, f: Flight, inp: Input, was: Row, seen: Row)
    requires GoodInput(inp) && (f.thread.LoginReread? || f.thread.EnableReread?)
    requires ThreadFacts(w, f, was, seen) && f.tried <= |s.log|
    ensures ThreadFacts(w, Flew(w, s, f, inp), was, s.row)
  {
  }

  /** The row at the first and at the latest read, once the step is taken. */
  function WasAfter(s: State, f: Flight, was: Row): Row {
    if f.thread.Start? then s.row else was
  }

  function SeenAfter(w: World, s: State, f: Flight, inp: Input, seen: Row): Row
    requires WellFormed(f.thread)
  {
    if ReadsRow(f.thread) || (f.thread.LoginClear? && Landed(w, f.thread, s.row, inp)) then s.row else seen
  }

  predicate InVerify(t: Thread) {
    t.VerifyLimit? || t.VerifyCheck? || t.VerifyConsume? || t.VerifySwap?
  }

  predicate InEnrolment(t: Thread) {
    t.SetupLimit? || t.SetupCheck? || t.SetupWrite?
    || t.EnableLimit? || t.EnableCheck? || t.EnableWrite? || t.EnableReread?
  }

  predicate InLogin(t: Thread) {
    t.LoginSwap? || t.LoginClear? || t.LoginReread?
  }

  /** The row seen last does not change unless the step reads. */
  ghost predicate StepFacts(w: World, s: State, f: Flight, inp: Input, was: Row, seen: Row)
    requires WellFormed(f.thread) && GoodInput(inp)
  {
    && WellFormed(Flew(w, s, f, inp).thread)
    && ThreadFacts(w, Flew(w, s, f, inp), WasAfter(s, f, was), SeenAfter(w, s, f, inp, seen))
  }

  lemma BeginKnows(w: World, s: State, f: Flight, inp: Input, was: Row, seen: Row)
    requires LawfulWorld(w) && RequestOk(w, f.request) && RowOk(s.row) && GoodInput(inp)
    requires f.thread == Start(f.request)
    ensures StepFacts(w, s, f, inp, was, seen)
  {
    hide ThreadFacts, Resume, Landed, RowOk, LawfulWorld, RequestOk;
    if f.request.LoginRequest? {
      LoginBegins(w, s, f, inp);
    } else if f.request.PasswordRequest? {
      PasswordBegins(w, s, f, inp);
    } else {
      OthersBegin(w, s, f, inp);
    }
  }

  lemma EnrolmentKnows(w: World, s: State, f: Flight, inp: Input, was: Row, seen: Row)
    requires LawfulWorld(w) && GoodInput(inp) && FreshDraw(w, s, f.thread, inp) && ThreadFacts(w, f, was, seen)
    requires InEnrolment(f.thread) && f.tried <= |s.log|
    ensures StepFacts(w, s, f, inp, was, seen)
  {
    hide ThreadFacts, Resume, FreshDraw, LawfulWorld, Landed;
    if f.thread.SetupLimit? || f.thread.SetupCheck? || f.thread.SetupWrite? {
      SetupKnows(w, s, f, inp, was, seen);
    } else if f.thread.EnableReread? {
      RereadKnows(w, s, f, inp, was, seen);
    } else {
      EnableKnows(w, s, f, inp, was, seen);
    }
  }

  lemma LoginKnows(w: World, s: State, f: Flight, inp: Input, was: Row, seen: Row)
    requires GoodInput(inp) && ThreadFacts(w, f, was, seen) && f.first <= |s.log| && f.tried <= |s.log|
    requires InLogin(f.thread)
    ensures StepFacts(w, s, f, inp, was, seen)
  {
    hide ThreadFacts, Resume, Landed;
    if f.thread.LoginSwap? {
      LoginSwapKnows(w, s, f, inp, was, seen);
    } else if f.thread.LoginClear? {
      LoginClearKnows(w, s, f, inp, was, seen);
    } else {
      RereadKnows(w, s, f, inp, was, seen);
    }
  }

  lemma VerifyingKnows(w: World, s: State, f: Flight, inp: Input, was: Row, seen: Row)
    requires WellFormed(f.thread) && GoodInput(inp) && RowOk(was) && ThreadFacts(w, f, was, seen)
    requires InVerify(f.thread) || f.thread.VerifyList?
    ensures StepFacts(w, s, f, inp, was, seen)
  {
    hide ThreadFacts, Resume, Landed, RowOk;
    if f.thread.VerifyList? {
      VerifyListKnows(w, s, f, inp, was, seen);
    } else {
      VerifyKnows(w, s, f, inp, was, seen);
    }
  }

  lemma OthersKnow(w: World, s: State, f: Flight, inp: Input, was: Row, seen: Row)
    requires GoodInput(inp) && ThreadFacts(w, f, was, seen)
    requires f.thread.DisableLimit? || f.thread.DisableCheck? || f.thread.DisableWrite? || f.thread.PasswordWrite?
    ensures StepFacts(w, s, f, inp, was, seen)
  {
    hide ThreadFacts, Landed;
    DisableKnows(w, s, f, inp, was, seen);
  }

  lemma StepKnows(w: World, s: State, f: Flight, inp: Input, was: Row, seen: Row)
    requires LawfulWorld(w) && RequestOk(w, f.request) && RowOk(s.row) && RowOk(was)
    requires WellFormed(f.thread) && !f.thread.Answered? && GoodInput(inp) && FreshDraw(w, s, f.thread, inp)
    requires ThreadFacts(w, f, was, seen) && f.first <= |s.log| && f.tried <= |s.log|
    ensures StepFacts(w, s, f, inp, was, seen)
  {
    hide StepFacts, Resume, Landed, RowOk, LawfulWorld, RequestOk, FreshDraw;
    if f.thread.Start? {
      BeginKnows(w, s, f, inp, was, seen);
    } else if InVerify(f.thread) || f.thread.VerifyList? {
      VerifyingKnows(w, s, f, inp, was, seen);
    } else if InEnrolment(f.thread) {
      EnrolmentKnows(w, s, f, inp, was, seen);
    } else if InLogin(f.thread) {
      LoginKnows(w, s, f, inp, was, seen);
    } else {
      OthersKnow(w, s, f, inp, was, seen);
    }
  }

  // ---- the write of a step is admissible ----

  ghost predicate EntryOk(w: World, f: Flight, inp: Input, id: nat, row: Row, placed: set<string>, issued: set<string>)
    requires WellFormed(f.thread) && StatementOf(w, f.thread, inp).Some?
  {
    AdmissibleOn(w, row, placed, issued, Entry(Some(id), StatementOf(w, f.thread, inp).value, NoteOf(f)))
  }

  lemma PasswordEntryOk(w: World, f: Flight, inp: Input, id: nat, row: Row,
                        placed: set<string>, issued: set<string>, was: Row, seen: Row)
    requires LawfulWorld(w) && RequestOk(w, f.request) && GoodInput(inp) && ThreadFacts(w, f, was, seen)
    requires f.thread.LoginSwap? || f.thread.PasswordWrite?
    requires Landed(w, f.thread, row, inp)
    ensures EntryOk(w, f, inp, id, row, placed, issued)
  {
    hide VerifyPassword, NeedsRehash, HashPassword, Lawful, ReadsBack;
    if f.thread.LoginSwap? {
      HashVerifies(w.pw, f.thread.password, inp.passwordSalt);
    }
  }

  lemma CodesEntryOk(w: World, f: Flight, inp: Input, id: nat, row: Row,
                     placed: set<string>, issued: set<string>, was: Row, seen: Row)
    requires WellFormed(f.thread) && ThreadFacts(w, f, was, seen)
    requires f.thread.VerifySwap? && Landed(w, f.thread, row, inp)
    ensures EntryOk(w, f, inp, id, row, placed, issued)
  {
  }

  lemma EnrolmentEntryOk(w: World, f: Flight, inp: Input, id: nat, row: Row,
                         placed: set<string>, issued: set<string>, was: Row, seen: Row)
    requires WellFormed(f.thread) && ThreadFacts(w, f, was, seen)
    requires f.thread.SetupWrite? ==> f.thread.secret !in placed
    requires f.thread.EnableWrite? ==> forall h :: h in f.thread.hashes ==> h !in issued
    requires !f.thread.LoginSwap? && !f.thread.PasswordWrite? && !f.thread.VerifySwap?
    requires Landed(w, f.thread, row, inp)
    ensures EntryOk(w, f, inp, id, row, placed, issued)
  {
  }

  function EntryOf(w: World, s: State, id: nat, inp: Input): Entry
    requires id < |s.flights| && WellFormed(s.flights[id].thread) && StatementOf(w, s.flights[id].thread, inp).Some?
  {
    Entry(Some(id), StatementOf(w, s.flights[id].thread, inp).value, NoteOf(s.flights[id]))
  }

  lemma LandedIsAdmissible(w: World, row0: Row, s: State, id: nat, inp: Input)
    requires LawfulWorld(w) && Inv(w, row0, s) && Enabled(w, s, Proceed(id, inp))
    requires Landed(w, s.flights[id].thread, s.row, inp)
    ensures Admissible(w, row0, s.log, EntryOf(w, s, id, inp))
  {
    var f := s.flights[id];
    assert FlightOk(w, row0, s.log, f);
    var was, seen := RowAt(row0, s.log, f.first), RowAt(row0, s.log, f.last);
    var placed, issued := Placed(row0, s.log), Issued(row0, s.log);
    if f.thread.LoginSwap? || f.thread.PasswordWrite? {
      PasswordEntryOk(w, f, inp, id, s.row, placed, issued, was, seen);
    } else if f.thread.VerifySwap? {
      CodesEntryOk(w, f, inp, id, s.row, placed, issued, was, seen);
    } else {
      assert StillFresh(f.thread, s.secrets, s.hashes, placed, issued);
      EnrolmentEntryOk(w, f, inp, id, s.row, placed, issued, was, seen);
    }
  }

  lemma ResetIsAdmissible(w: World, row0: Row, log: seq<Entry>, password: string, salt: seq<Byte>)
    requires LawfulWorld(w) && password in w.passwords && |salt| == ARGON_SALT_LEN
    ensures Admissible(w, row0, log, Entry(None, Reset(HashPassword(w.pw, password, salt)), Typed(password)))
  {
    HashVerifies(w.pw, password, salt);
  }

  // ---- the step keeps the invariant ----

  /** The secret and the hashes a step puts into the row. */
  function NewlyPlaced(w: World, t: Thread, row: Row, inp: Input): set<string>
    requires WellFormed(t)
  {
    if Landed(w, t, row, inp) && t.SetupWrite? then {t.secret} else {}
  }

  function NewlyIssued(w: World, t: Thread, row: Row, inp: Input): set<string>
    requires WellFormed(t)
  {
    if Landed(w, t, row, inp) && t.EnableWrite? then set h | h in t.hashes else {}
  }

  lemma ProceedLog(w: World, row0: Row, s: State, id: nat, inp: Input)
    requires LawfulWorld(w) && Inv(w, row0, s) && Enabled(w, s, Proceed(id, inp))
    ensures var f, t := s.flights[id], ProceedWith(w, s, id, inp);
            && t.row == Replay(row0, t.log) && Legal(w, row0, t.log)
            && t.log == (if Landed(w, f.thread, s.row, inp) then s.log + [EntryOf(w, s, id, inp)] else s.log)
            && Placed(row0, t.log) == Placed(row0, s.log) + NewlyPlaced(w, f.thread, s.row, inp)
            && Issued(row0, t.log) == Issued(row0, s.log) + NewlyIssued(w, f.thread, s.row, inp)
  {
    hide AdmissibleOn, ThreadFacts, VerifyPassword, FlightOk, Draws, Resume;
    if Landed(w, s.flights[id].thread, s.row, inp) {
      LandedIsAdmissible(w, row0, s, id, inp);
      AppendReplays(w, row0, s.log, EntryOf(w, s, id, inp));
    }
  }

  /** The new state g of a thread after f: it may hold what was just drawn, and what f held may have
      reached the row. */
  ghost predicate DrawStep(f: Thread, g: Thread,
                           secrets: set<string>, hashes: set<string>, placed: set<string>, issued: set<string>,
                           secrets': set<string>, hashes': set<string>, placed': set<string>, issued': set<string>)
  {
    && secrets <= secrets' && hashes <= hashes'
    && (g.SetupWrite? ==> g.secret !in secrets && g.secret in secrets' && placed' == placed)
    && (g.EnableWrite? ==> (forall h :: h in g.hashes ==> h !in hashes && h in hashes') && issued' == issued)
    && (placed' == placed || (f.SetupWrite? && placed' == placed + {f.secret}))
    && (issued' == issued || (f.EnableWrite? && issued' == issued + (set h | h in f.hashes)))
  }

  lemma OtherStaysFresh(f: Thread, g: Thread, t: Thread,
                        secrets: set<string>, hashes: set<string>, placed: set<string>, issued: set<string>,
                        secrets': set<string>, hashes': set<string>, placed': set<string>, issued': set<string>)
    requires DrawStep(f, g, secrets, hashes, placed, issued, secrets', hashes', placed', issued')
    requires StillFresh(t, secrets, hashes, placed, issued) && Apart(f, t)
    ensures StillFresh(t, secrets', hashes', placed', issued')
    ensures Apart(g, t) && Apart(t, g)
  {
  }

  lemma DrawsStep(flights: seq<Flight>, id: nat, g: Flight,
                  secrets: set<string>, hashes: set<string>, placed: set<string>, issued: set<string>,
                  secrets': set<string>, hashes': set<string>, placed': set<string>, issued': set<string>)
    requires id < |flights| && Draws(flights, secrets, hashes, placed, issued)
    requires DrawStep(flights[id].thread, g.thread, secrets, hashes, placed, issued,
                      secrets', hashes', placed', issued')
    ensures Draws(flights[id := g], secrets', hashes', placed', issued')
  {
    var f := flights[id].thread;
    assert StillFresh(f, secrets, hashes, placed, issued);
    forall i | 0 <= i < |flights| && i != id
      ensures StillFresh(flights[i].thread, secrets', hashes', placed', issued')
      ensures Apart(g.thread, flights[i].thread) && Apart(flights[i].thread, g.thread)
    {
      OtherStaysFresh(f, g.thread, flights[i].thread, secrets, hashes, placed, issued,
                      secrets', hashes', placed', issued');
    }
  }

  lemma ProceedDraws(w: World, s: State, id: nat, inp: Input,
                     placed: set<string>, issued: set<string>, placed': set<string>, issued': set<string>)
    requires id < |s.flights| && WellFormed(s.flights[id].thread) && GoodInput(inp)
    requires !s.flights[id].thread.Answered? && FreshDraw(w, s, s.flights[id].thread, inp)
    requires placed <= s.secrets && issued <= s.hashes
    requires placed' == placed + NewlyPlaced(w, s.flights[id].thread, s.row, inp)
    requires issued' == issued + NewlyIssued(w, s.flights[id].thread, s.row, inp)
    ensures var t := ProceedWith(w, s, id, inp);
            DrawStep(s.flights[id].thread, t.flights[id].thread, s.secrets, s.hashes, placed, issued,
                     t.secrets, t.hashes, placed', issued')
  {
    var f := s.flights[id];
    OnlyChecksDraw(w, f.thread, ViewOf(s), inp, Landed(w, f.thread, s.row, inp));
    assert ProceedWith(w, s, id, inp).flights[id].thread
        == Resume(w, f.thread, ViewOf(s), inp, Landed(w, f.thread, s.row, inp));
  }

  lemma OnlyChecksDraw(w: World, t: Thread, v: View, inp: Input, landed: bool)
    requires GoodInput(inp) && !t.Answered?
    ensures var g := Resume(w, t, v, inp, landed);
            && (g.SetupWrite? ==> t.SetupCheck? && g.secret == inp.secret)
            && (g.EnableWrite? ==> t.EnableCheck? && g.hashes == HashesOf(w, inp.raws, inp.salts))
  {
    hide VerifyPassword, NeedsRehash, HashPassword, VerifyTOTP, FirstMatch;
  }

  lemma ProceedKeepsDraws(w: World, row0: Row, s: State, id: nat, inp: Input)
    requires LawfulWorld(w) && Inv(w, row0, s) && Enabled(w, s, Proceed(id, inp))
    ensures DrawsOk(row0, ProceedWith(w, s, id, inp))
  {
    var f, t := s.flights[id], ProceedWith(w, s, id, inp);
    ProceedLog(w, row0, s, id, inp);
    ProceedDraws(w, s, id, inp, Placed(row0, s.log), Issued(row0, s.log), Placed(row0, t.log), Issued(row0, t.log));
    DrawsStep(s.flights, id, t.flights[id], s.secrets, s.hashes, Placed(row0, s.log), Issued(row0, s.log),
              t.secrets, t.hashes, Placed(row0, t.log), Issued(row0, t.log));
  }

  /** The rows at the marks of the thread that moved, on the longer history. */
  lemma MarksAfter(w: World, row0: Row, s: State, f: Flight, inp: Input, log: seq<Entry>)
    requires WellFormed(f.thread) && GoodInput(inp)
    requires s.row == Replay(row0, s.log) && s.log <= log && f.first <= f.last <= |s.log|
    ensures var g := Flew(w, s, f, inp);
            && g.first <= g.last <= |log| && (f.tried <= |s.log| ==> g.tried <= |log|)
            && RowAt(row0, log, g.first) == WasAfter(s, f, RowAt(row0, s.log, f.first))
            && RowAt(row0, log, g.last) == SeenAfter(w, s, f, inp, RowAt(row0, s.log, f.last))
  {
    assert log[..|s.log|] == s.log;
    assert log[..f.first] == s.log[..f.first] && log[..f.last] == s.log[..f.last];
  }

  lemma FlewKnows(w: World, row0: Row, s: State, id: nat, inp: Input)
    requires LawfulWorld(w) && Inv(w, row0, s) && Enabled(w, s, Proceed(id, inp))
    ensures var f := s.flights[id];
            && f.first <= f.last <= |s.log| && f.tried <= |s.log| && RequestOk(w, f.request)
            && StepFacts(w, s, f, inp, RowAt(row0, s.log, f.first), RowAt(row0, s.log, f.last))
  {
    var f := s.flights[id];
    assert FlightOk(w, row0, s.log, f);
    LegalPrefix(w, row0, s.log, f.first);
    RowAlwaysOk(w, row0, s.log[..f.first]);
    RowAlwaysOk(w, row0, s.log);
    StepKnows(w, s, f, inp, RowAt(row0, s.log, f.first), RowAt(row0, s.log, f.last));
  }

  lemma FlewIsOk(w: World, row0: Row, s: State, id: nat, inp: Input)
    requires LawfulWorld(w) && Inv(w, row0, s) && Enabled(w, s, Proceed(id, inp))
    ensures var t := ProceedWith(w, s, id, inp);
            s.log <= t.log && FlightOk(w, row0, t.log, t.flights[id])
  {
    var t := ProceedWith(w, s, id, inp);
    FlewKnows(w, row0, s, id, inp);
    MarksAfter(w, row0, s, s.flights[id], inp, t.log);
    assert t.flights[id] == Flew(w, s, s.flights[id], inp);
  }

  lemma ProceedKeepsInv(w: World, row0: Row, s: State, id: nat, inp: Input)
    requires LawfulWorld(w) && Inv(w, row0, s) && Enabled(w, s, Proceed(id, inp))
    ensures Inv(w, row0, ProceedWith(w, s, id, inp))
  {
    var t := ProceedWith(w, s, id, inp);
    ProceedLog(w, row0, s, id, inp);
    ProceedKeepsDraws(w, row0, s, id, inp);
    assert FlightsOk(w, row0, s.log, s.flights);
    forall i | 0 <= i < |t.flights|
      ensures FlightOk(w, row0, t.log, t.flights[i])
    {
      if i == id {
        FlewIsOk(w, row0, s, id, inp);
      } else if Landed(w, s.flights[id].thread, s.row, inp) {
        AppendKeepsFlight(w, row0, s.log, EntryOf(w, s, id, inp), s.flights[i]);
      }
    }
  }

  lemma AppendKeepsFlights(w: World, row0: Row, log: seq<Entry>, e: Entry, flights: seq<Flight>)
    requires FlightsOk(w, row0, log, flights)
    ensures FlightsOk(w, row0, log + [e], flights)
  {
    forall i | 0 <= i < |flights|
      ensures FlightOk(w, row0, log + [e], flights[i])
    {
      AppendKeepsFlight(w, row0, log, e, flights[i]);
    }
  }

  lemma PasswordWriteKeepsInv(w: World, row0: Row, s: State, e: Entry)
    requires Inv(w, row0, s) && Admissible(w, row0, s.log, e)
    requires !e.stmt.SetPending? && !e.stmt.Enable?
    ensures Inv(w, row0, s.(row := Write(s.row, e.stmt), log := s.log + [e]))
  {
    hide AdmissibleOn, ThreadFacts, VerifyPassword, Draws;
    var t := s.(row := Write(s.row, e.stmt), log := s.log + [e]);
    AppendKeepsFlights(w, row0, s.log, e, s.flights);
    assert FlightsOk(w, row0, t.log, t.flights);
    AppendReplays(w, row0, s.log, e);
    assert Placed(row0, t.log) == Placed(row0, s.log) && Issued(row0, t.log) == Issued(row0, s.log);
    assert DrawsOk(row0, t);
  }

  lemma ArriveKeepsInv(w: World, row0: Row, s: State, request: Request)
    requires Inv(w, row0, s) && Enabled(w, s, Arrive(request))
    ensures Inv(w, row0, Next(w, s, Arrive(request)))
  {
    hide AdmissibleOn, VerifyPassword, Replay, Legal;
    var t := Next(w, s, Arrive(request));
    assert forall i :: 0 <= i < |s.flights| ==> t.flights[i] == s.flights[i];
  }

  lemma NextKeepsInv(w: World, row0: Row, s: State, a: Action)
    requires LawfulWorld(w) && Inv(w, row0, s) && Enabled(w, s, a)
    ensures Inv(w, row0, Next(w, s, a))
  {
    match a {
      case Arrive(request) => ArriveKeepsInv(w, row0, s, request);
      case Proceed(id, inp) => ProceedKeepsInv(w, row0, s, id, inp);
      case Tick(_, _) =>
      case ResetByShell(password, salt) =>
        ResetIsAdmissible(w, row0, s.log, password, salt);
        PasswordWriteKeepsInv(w, row0, s, Entry(None, Reset(HashPassword(w.pw, password, salt)), Typed(password)));
    }
  }

  lemma InitialInv(w: World, row0: Row, wall: int, mono: real)
    requires RowOk(row0)
    ensures Inv(w, row0, Initial(row0, wall, mono))
  {
  }

  /** The invariant holds in every reachable state. */
  lemma {:induction false} Reachable(w: World, row0: Row, wall: int, mono: real, run: seq<Action>)
    requires LawfulWorld(w) && RowOk(row0) && ValidRun(w, Initial(row0, wall, mono), run)
    ensures Inv(w, row0, After(w, Initial(row0, wall, mono), run))
  {
    if run == [] {
      InitialInv(w, row0, wall, mono);
    } else {
      Reachable(w, row0, wall, mono, run[..|run| - 1]);
      NextKeepsInv(w, row0, After(w, Initial(row0, wall, mono), run[..|run| - 1]), run[|run| - 1]);
    }
  }
}
