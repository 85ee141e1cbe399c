/** The request handlers of route/v1/user.go and route/v1/user_2fa.go, cut at each SQL statement, at the
    rate limiter and at each reading of the clock. */
module Handlers {
  import opened Prelude
  import opened World
  import opened Password
  import opened Rows
  import opened Totp
  import opened Recovery

  // ---- tokens: who signed, for what, until when ----

  datatype Key = SessionKey | PreAuthKey | ForeignKey

  datatype Token = Token(key: Key, issuer: string, expires: int)

  const PRE_AUTH_TTL := 5 * 60
  const ACCESS_TTL := 3 * 60 * 60

  function IssuePreAuthToken(now: int): Token {
    Token(PreAuthKey, "2fa", now + PRE_AUTH_TTL)
  }

  predicate ParsePreAuthToken(t: Token, now: int) {
    t.key == PreAuthKey && t.issuer == "2fa" && now < t.expires
  }

  predicate ParseRefreshToken(t: Token, now: int) {
    t.key == SessionKey && now < t.expires && t.issuer == "refresh"
  }

  // ---- requests and answers ----

  datatype Request =
    | LoginRequest(password: string)
    | VerifyRequest(token: Token, code: string, recovery: string)
    | SetupRequest(password: string)
    | EnableRequest(code: string)
    | DisableRequest(code: string, password: string)
    | PasswordRequest(oldPassword: string, newPassword: string)
    | RefreshRequest(token: Token)

  datatype Reason =
    | TokenRejected | UserNotExist | NotEnabled | AlreadyEnabled | TooManyRequests
    | CodeInvalid | InvalidParams | PasswordInvalid | ServiceError

  datatype Answer =
    | Session(access: Token, refresh: Token)
    | PreAuth(token: Token)
    | PendingSecret(secret: string)
    | RecoveryCodes(plain: seq<string>)
    | Success
    | Failure(reason: Reason)

  // ---- a handler between two steps, with the row it read ----

  datatype Thread =
    | Start(request: Request)
    | VerifyLimit(user: Row, code: string, recovery: string)
    | VerifyCheck(user: Row, code: string)
    | VerifyConsume(user: Row, step: int)
    | VerifyList(user: Row, recovery: string)
    | VerifySwap(user: Row, prev: seq<string>, index: nat)
    | SetupLimit(user: Row, password: string)
    | SetupCheck(user: Row, password: string)
    | SetupWrite(user: Row, secret: string)
    | EnableLimit(user: Row, code: string)
    | EnableCheck(user: Row, code: string)
    | EnableWrite(user: Row, step: int, plain: seq<string>, hashes: seq<string>)
    | EnableReread
    | DisableLimit(user: Row, code: string, password: string)
    | DisableCheck(user: Row, code: string, password: string)
    | DisableWrite(user: Row)
    | LoginSwap(user: Row, password: string)
    | LoginClear(user: Row)
    | LoginReread
    | PasswordWrite(hash: string, password: string)
    | Answered(answer: Answer)

  /** What a step draws, and which of its calls fail. */
  datatype Input = Input(
    fault: bool,            // the SQL statement of this step fails
    loginAllowed: bool,     // the service-wide login limiter
    generatorFails: bool,   // totp.Generate, or NewRecoveryCodes
    signingFails: bool,     // a JWT could not be signed
    secret: string,
    raws: seq<seq<Byte>>,
    salts: seq<seq<Byte>>,
    passwordSalt: seq<Byte>)

  predicate GoodInput(inp: Input) {
    && |inp.raws| == CODES && |inp.salts| == CODES
    && (forall i :: 0 <= i < CODES ==> |inp.raws[i]| == RAW_BYTES)
    && |inp.passwordSalt| == ARGON_SALT_LEN
  }

  /** What a step sees of the shared state. */
  datatype View = View(row: Row, wall: int, allowed: bool)

  function Fail(reason: Reason): Thread {
    Answered(Failure(reason))
  }

  function IssueTokens(w: World, v: View, inp: Input): Thread {
    if inp.signingFails then Fail(ServiceError)
    else Answered(Session(Token(SessionKey, w.accessIssuer, v.wall + ACCESS_TTL),
                          Token(SessionKey, "refresh", v.wall + w.refreshLifetime)))
  }

  /** The end of PostUserLogin, with user as it stands there. */
  function FinishLogin(w: World, v: View, inp: Input, user: Row): Thread {
    if user.enabled then
      if inp.signingFails then Fail(ServiceError) else Answered(PreAuth(IssuePreAuthToken(v.wall)))
    else IssueTokens(w, v, inp)
  }

  function AfterUpgrade(w: World, v: View, inp: Input, user: Row): Thread {
    if !user.enabled && user.secret != "" then LoginClear(user) else FinishLogin(w, v, inp, user)
  }

  /** The first step of each handler: the checks before the row is read, and the read. */
  function Begin(w: World, request: Request, v: View, inp: Input): Thread {
    match request
    case LoginRequest(password) =>
      if !inp.loginAllowed then Fail(TooManyRequests)
      else if password == "" then Fail(InvalidParams)
      else if inp.fault then Fail(UserNotExist)
      else if !VerifyPassword(w.pw, v.row.password, password) then Fail(PasswordInvalid)
      else if NeedsRehash(w.pw, v.row.password) then LoginSwap(v.row, password)
      else AfterUpgrade(w, v, inp, v.row)
    case VerifyRequest(token, code, recovery) =>
      if !ParsePreAuthToken(token, v.wall) then Fail(TokenRejected)
      else if inp.fault || !v.row.enabled then Fail(NotEnabled)
      else VerifyLimit(v.row, code, recovery)
    case SetupRequest(password) =>
      if inp.fault then Fail(UserNotExist)
      else if v.row.enabled then Fail(AlreadyEnabled)
      else if password == "" then Fail(InvalidParams)
      else SetupLimit(v.row, password)
    case EnableRequest(code) =>
      if inp.fault then Fail(UserNotExist)
      else if v.row.enabled then Fail(AlreadyEnabled)
      else if v.row.secret == "" then Fail(NotEnabled)
      else EnableLimit(v.row, code)
    case DisableRequest(code, password) =>
      if inp.fault then Fail(UserNotExist)
      else if !v.row.enabled then Fail(NotEnabled)
      else if (code == "") == (password == "") then Fail(InvalidParams)
      else DisableLimit(v.row, code, password)
    case PasswordRequest(oldPassword, newPassword) =>
      if oldPassword == "" || newPassword == "" then Fail(InvalidParams)
      else if inp.fault then Fail(UserNotExist)
      else if !VerifyPassword(w.pw, v.row.password, oldPassword) then Fail(PasswordInvalid)
      else PasswordWrite(HashPassword(w.pw, newPassword, inp.passwordSalt), newPassword)
    case RefreshRequest(token) =>
      if !ParseRefreshToken(token, v.wall) then Fail(TokenRejected) else IssueTokens(w, v, inp)
  }

  /** The UPDATE a handler issues at its next step, if that step is one. */
  function StatementOf(w: World, t: Thread, inp: Input): Option<Statement>
    requires t.VerifySwap? ==> t.index < |t.prev|
  {
    match t
    case VerifyConsume(_, step) => Some(ConsumeStep(step))
    case VerifySwap(_, prev, index) => Some(ReplaceCodes(prev, RemoveAt(prev, index)))
    case SetupWrite(_, secret) => Some(SetPending(secret))
    case EnableWrite(user, step, _, hashes) => Some(Enable(user.secret, step, hashes))
    case DisableWrite(user) => Some(Disable(user.secret))
    case LoginSwap(user, password) =>
      Some(ReplacePassword(user.password, HashPassword(w.pw, password, inp.passwordSalt)))
    case LoginClear(user) => Some(ClearPending(user.secret))
    case PasswordWrite(hash, _) => Some(UpdatePassword(hash))
    case _ => None
  }

  /** Where a handler is after its next step; landed says whether its UPDATE, if any, changed the row. */
  function Resume(w: World, t: Thread, v: View, inp: Input, landed: bool): Thread
    requires GoodInput(inp)
  {
    match t
    case Start(request) => Begin(w, request, v, inp)
    // PostUser2FAVerify
    case VerifyLimit(user, code, recovery) =>
      if !v.allowed then Fail(TooManyRequests)
      else if code != "" && recovery == "" then VerifyCheck(user, code)
      else if recovery != "" && code == "" then VerifyList(user, recovery)
      else Fail(InvalidParams)
    case VerifyCheck(user, code) =>
      (match VerifyTOTP(w, user.secret, code, user.lastStep, v.wall)
       case None => Fail(CodeInvalid)
       case Some(step) => VerifyConsume(user, step))
    case VerifyConsume(_, _) => if landed then IssueTokens(w, v, inp) else Fail(CodeInvalid)
    case VerifyList(user, recovery) =>
      if inp.fault then Fail(CodeInvalid) else
      (match FirstMatch(w, v.row.List(), recovery)
       case None => Fail(CodeInvalid)
       case Some(i) => VerifySwap(user, v.row.List(), i))
    case VerifySwap(_, _, _) => if landed then IssueTokens(w, v, inp) else Fail(CodeInvalid)
    // PostUser2FASetup
    case SetupLimit(user, password) => if !v.allowed then Fail(TooManyRequests) else SetupCheck(user, password)
    case SetupCheck(user, password) =>
      if !VerifyPassword(w.pw, user.password, password) then Fail(CodeInvalid)
      else if inp.generatorFails then Fail(ServiceError)
      else SetupWrite(user, inp.secret)
    case SetupWrite(_, secret) => if landed then Answered(PendingSecret(secret)) else Fail(AlreadyEnabled)
    // PostUser2FAEnable
    case EnableLimit(user, code) => if !v.allowed then Fail(TooManyRequests) else EnableCheck(user, code)
    case EnableCheck(user, code) =>
      (match VerifyTOTP(w, user.secret, code, 0, v.wall)
       case None => Fail(CodeInvalid)
       case Some(step) =>
         if inp.generatorFails then Fail(ServiceError)
         else EnableWrite(user, step, PlainCodes(inp.raws), HashesOf(w, inp.raws, inp.salts)))
    case EnableWrite(_, _, plain, _) => if landed then Answered(RecoveryCodes(plain)) else EnableReread
    case EnableReread => if !inp.fault && v.row.enabled then Fail(AlreadyEnabled) else Fail(NotEnabled)
    // PostUser2FADisable
    case DisableLimit(user, code, password) =>
      if !v.allowed then Fail(TooManyRequests) else DisableCheck(user, code, password)
    case DisableCheck(user, code, password) =>
      var valid := if code != "" then VerifyTOTP(w, user.secret, code, user.lastStep, v.wall).Some?
                   else VerifyPassword(w.pw, user.password, password);
      if !valid then Fail(CodeInvalid) else DisableWrite(user)
    case DisableWrite(_) => if landed then Answered(Success) else Fail(NotEnabled)
    // PostUserLogin
    case LoginSwap(user, _) => AfterUpgrade(w, v, inp, user)
    case LoginClear(user) => if landed then FinishLogin(w, v, inp, user) else LoginReread
    case LoginReread => if inp.fault then Fail(PasswordInvalid) else FinishLogin(w, v, inp, v.row)
    // PutUserPassword
    case PasswordWrite(_, _) => if landed then Answered(Success) else Fail(ServiceError)
    case Answered(_) => t
  }

  predicate WellFormed(t: Thread) {
    t.VerifySwap? ==> t.index < |t.prev|
  }

  predicate Landed(w: World, t: Thread, row: Row, inp: Input)
    requires WellFormed(t)
  {
    var stmt := StatementOf(w, t, inp);
    stmt.Some? && Lands(row, stmt.value, inp.fault)
  }

  /** One step of a handler on the row. */
  function Advance(w: World, t: Thread, v: View, inp: Input): (r: (Thread, Row))
    requires GoodInput(inp) && WellFormed(t)
    ensures WellFormed(r.0)
  {
    var landed := Landed(w, t, v.row, inp);
    (Resume(w, t, v, inp, landed), if landed then Write(v.row, StatementOf(w, t, inp).value) else v.row)
  }

  // ---- one handler alone among other requests' statements ----

  /** What happens around one step: first other requests' statements, then this step. */
  datatype Cut = Cut(others: seq<Statement>, wall: int, allowed: bool, inp: Input)

  ghost predicate GoodCuts(cuts: seq<Cut>) {
    forall k :: 0 <= k < |cuts| ==> GoodInput(cuts[k].inp)
  }

  function StepCut(w: World, t: Thread, row: Row, cut: Cut): (r: (Thread, Row))
    requires GoodInput(cut.inp) && WellFormed(t)
    ensures WellFormed(r.0)
  {
    Advance(w, t, View(ExecAll(row, cut.others), cut.wall, cut.allowed), cut.inp)
  }

  function RunThread(w: World, t: Thread, row: Row, cuts: seq<Cut>): (r: (Thread, Row))
    requires GoodCuts(cuts) && WellFormed(t)
    ensures WellFormed(r.0)
  {
    if cuts == [] then (t, row)
    else
      var front := RunThread(w, t, row, cuts[..|cuts| - 1]);
      StepCut(w, front.0, front.1, cuts[|cuts| - 1])
  }

  /** A statement that changed the row while a handler ran: its own, or another request's. */
  datatype Act = Act(own: bool, stmt: Statement)

  function Foreign(stmts: seq<Statement>): (acts: seq<Act>)
    ensures |acts| == |stmts| && forall k :: 0 <= k < |acts| ==> acts[k] == Act(false, stmts[k])
  {
    seq(|stmts|, i requires 0 <= i < |stmts| => Act(false, stmts[i]))
  }

  function Own(w: World, t: Thread, row: Row, inp: Input): seq<Act>
    requires WellFormed(t)
  {
    if Landed(w, t, row, inp) then [Act(true, StatementOf(w, t, inp).value)] else []
  }

  /** What RunThread did to the row, and what was done to it in between. */
  function Trace(w: World, t: Thread, row: Row, cuts: seq<Cut>): seq<Act>
    requires GoodCuts(cuts) && WellFormed(t)
  {
    if cuts == [] then []
    else
      var front, cut := cuts[..|cuts| - 1], cuts[|cuts| - 1];
      var r := RunThread(w, t, row, front);
      Trace(w, t, row, front) + Foreign(cut.others) + Own(w, r.0, ExecAll(r.1, cut.others), cut.inp)
  }

  /** Nothing fails and the limiter lets the step through. */
  function Quiet(wall: int, others: seq<Statement>): Cut {
    Cut(others, wall, true, Input(false, true, false, false, "", seq(CODES, i => seq(RAW_BYTES, j => 0)),
                                  seq(CODES, i => []), seq(ARGON_SALT_LEN, i => 0)))
  }
}
