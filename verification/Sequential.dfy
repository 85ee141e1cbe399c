/** Each request when nobody writes in between: what it answers and what it leaves, in every case. */
module Sequential {
  import opened Prelude
  import opened World
  import opened Password
  import opened Rows
  import opened Totp
  import opened Recovery
  import opened Handlers

  lemma RunOne(w: World, t: Thread, row: Row, cuts: seq<Cut>, cut: Cut)
    requires GoodCuts(cuts) && GoodInput(cut.inp) && WellFormed(t)
    ensures var r := RunThread(w, t, row, cuts);
            GoodCuts(cuts + [cut]) && RunThread(w, t, row, cuts + [cut]) == StepCut(w, r.0, r.1, cut)
  {
    hide StepCut;
    assert (cuts + [cut])[..|cuts|] == cuts;
  }

  lemma RunFour(w: World, t: Thread, row: Row, c0: Cut, c1: Cut, c2: Cut, c3: Cut)
    requires WellFormed(t) && GoodInput(c0.inp) && GoodInput(c1.inp) && GoodInput(c2.inp) && GoodInput(c3.inp)
    ensures var r0 := StepCut(w, t, row, c0);
            var r1 := StepCut(w, r0.0, r0.1, c1);
            var r2 := StepCut(w, r1.0, r1.1, c2);
            GoodCuts([c0, c1, c2, c3]) && RunThread(w, t, row, [c0, c1, c2, c3]) == StepCut(w, r2.0, r2.1, c3)
  {
    hide StepCut, GoodInput;
    RunOne(w, t, row, [], c0);
    RunOne(w, t, row, [c0], c1);
    RunOne(w, t, row, [c0, c1], c2);
    RunOne(w, t, row, [c0, c1, c2], c3);
    assert [] + [c0] == [c0] && [c0] + [c1] == [c0, c1];
    assert [c0, c1] + [c2] == [c0, c1, c2] && [c0, c1, c2] + [c3] == [c0, c1, c2, c3];
  }

  /** A request that is let alone: every step at one time, with one answer of the limiter and one draw. */
  function Alone(w: World, request: Request, row: Row, c: Cut): (Thread, Row)
    requires GoodInput(c.inp)
  {
    RunThread(w, Start(request), row, [c, c, c, c])
  }

  /** Nobody else writes. */
  predicate Calm(c: Cut) {
    GoodInput(c.inp) && c.others == []
  }

  /** And nothing fails, and the limiter plays along. */
  predicate Friendly(c: Cut) {
    Calm(c) && !c.inp.fault && c.allowed && !c.inp.signingFails
  }

  /** A refusal, which leaves the row alone. */
  function Refused(reason: Reason, row: Row): (Thread, Row) {
    (Answered(Failure(reason)), row)
  }

  lemma FirstStep(w: World, request: Request, row: Row, c: Cut)
    requires Calm(c)
    ensures StepCut(w, Start(request), row, c) == (Begin(w, request, View(row, c.wall, c.allowed), c.inp), row)
  {
    hide Begin, HashPassword;
  }

  lemma AnsweredStays(w: World, answer: Answer, row: Row, c: Cut)
    requires Calm(c)
    ensures StepCut(w, Answered(answer), row, c) == (Answered(answer), row)
  {
  }

  /** The access and the refresh token of a session granted now. */
  function SessionOf(w: World, now: int): Answer {
    Session(Token(SessionKey, w.accessIssuer, now + 3 * 3600), Token(SessionKey, "refresh", now + w.refreshLifetime))
  }

  /** A setup: it stores the secret it drew and answers it. */
  lemma SetupAlone(w: World, password: string, row: Row, c: Cut)
    requires Calm(c)
    ensures Alone(w, SetupRequest(password), row, c)
         == if c.inp.fault then Refused(UserNotExist, row)
            else if row.enabled then Refused(AlreadyEnabled, row)
            else if password == "" then Refused(InvalidParams, row)
            else if !c.allowed then Refused(TooManyRequests, row)
            else if !VerifyPassword(w.pw, row.password, password) then Refused(CodeInvalid, row)
            else if c.inp.generatorFails then Refused(ServiceError, row)
            else (Answered(PendingSecret(c.inp.secret)), row.(secret := c.inp.secret))
  {
    hide VerifyPassword, NeedsRehash, HashPassword, VerifyTOTP, FirstMatch, RunThread;
    RunFour(w, Start(SetupRequest(password)), row, c, c, c, c);
    FirstStep(w, SetupRequest(password), row, c);
  }

  /** An enable: it stores the step of the code and the hashes, and answers the codes they are of. */
  lemma EnableAlone(w: World, code: string, row: Row, c: Cut)
    requires Calm(c)
    ensures var step := VerifyTOTP(w, row.secret, code, 0, c.wall);
            Alone(w, EnableRequest(code), row, c)
            == if c.inp.fault then Refused(UserNotExist, row)
               else if row.enabled then Refused(AlreadyEnabled, row)
               else if row.secret == "" then Refused(NotEnabled, row)
               else if !c.allowed then Refused(TooManyRequests, row)
               else if step.None? then Refused(CodeInvalid, row)
               else if c.inp.generatorFails then Refused(ServiceError, row)
               else (Answered(RecoveryCodes(PlainCodes(c.inp.raws))),
                     row.(enabled := true, lastStep := step.value, codes := Some(HashesOf(w, c.inp.raws, c.inp.salts))))
  {
    hide VerifyPassword, NeedsRehash, HashPassword, VerifyTOTP, FirstMatch, RunThread, PlainCodes, HashesOf;
    RunFour(w, Start(EnableRequest(code)), row, c, c, c, c);
    FirstStep(w, EnableRequest(code), row, c);
  }

  /** A disable: with exactly one of a code and a password, and that one right, it clears all four columns. */
  lemma DisableAlone(w: World, code: string, password: string, row: Row, c: Cut)
    requires Calm(c)
    ensures var byCode := code != "" && VerifyTOTP(w, row.secret, code, row.lastStep, c.wall).Some?;
            var byPassword := password != "" && VerifyPassword(w.pw, row.password, password);
            Alone(w, DisableRequest(code, password), row, c)
            == if c.inp.fault then Refused(UserNotExist, row)
               else if !row.enabled then Refused(NotEnabled, row)
               else if (code != "" && password != "") || (code == "" && password == "") then Refused(InvalidParams, row)
               else if !c.allowed then Refused(TooManyRequests, row)
               else if !byCode && !byPassword then Refused(CodeInvalid, row)
               else (Answered(Success), Row(row.password, "", false, 0, None))
  {
    hide VerifyPassword, NeedsRehash, HashPassword, VerifyTOTP, FirstMatch, RunThread;
    RunFour(w, Start(DisableRequest(code, password)), row, c, c, c, c);
    FirstStep(w, DisableRequest(code, password), row, c);
  }

  /** A password change: it leaves a hash that verifies the new one and needs no rehash. */
  lemma PasswordAlone(w: World, oldPassword: string, newPassword: string, row: Row, c: Cut)
    requires LawfulWorld(w) && Calm(c)
    ensures var end := Alone(w, PasswordRequest(oldPassword, newPassword), row, c);
            if oldPassword == "" || newPassword == "" then end == Refused(InvalidParams, row)
            else if c.inp.fault then end == Refused(UserNotExist, row)
            else if !VerifyPassword(w.pw, row.password, oldPassword) then end == Refused(PasswordInvalid, row)
            else
              && end == (Answered(Success), row.(password := end.1.password))
              && VerifyPassword(w.pw, end.1.password, newPassword) && !NeedsRehash(w.pw, end.1.password)
  {
    hide VerifyPassword, NeedsRehash, HashPassword, RunThread, Lawful, ReadsBack, StepCut;
    var start := Start(PasswordRequest(oldPassword, newPassword));
    var hash := HashPassword(w.pw, newPassword, c.inp.passwordSalt);
    RunFour(w, start, row, c, c, c, c);
    FirstStep(w, PasswordRequest(oldPassword, newPassword), row, c);
    HashVerifies(w.pw, newPassword, c.inp.passwordSalt);
    if !c.inp.fault {
      PasswordLands(w, hash, newPassword, row, c);
    }
    forall answer, r: Row
      ensures StepCut(w, Answered(answer), r, c) == (Answered(answer), r)
    {
      AnsweredStays(w, answer, r, c);
    }
  }

  lemma PasswordLands(w: World, hash: string, password: string, row: Row, c: Cut)
    requires Calm(c) && !c.inp.fault
    ensures StepCut(w, PasswordWrite(hash, password), row, c) == (Answered(Success), row.(password := hash))
  {
    hide HashPassword;
  }

  /** A verify: with a live token of its kind, on an enabled row, with exactly one of a code and a recovery
      code, and that one right, it spends that factor, and answers with a session if it can be signed. */
  lemma VerifyAlone(w: World, token: Token, code: string, recovery: string, row: Row, c: Cut)
    requires Calm(c)
    ensures var live := token.key == PreAuthKey && token.issuer == "2fa" && c.wall < token.expires;
            var answer := if c.inp.signingFails then Failure(ServiceError) else SessionOf(w, c.wall);
            var step := VerifyTOTP(w, row.secret, code, row.lastStep, c.wall);
            var index := FirstMatch(w, row.List(), recovery);
            Alone(w, VerifyRequest(token, code, recovery), row, c)
            == if !live then Refused(TokenRejected, row)
               else if c.inp.fault || !row.enabled then Refused(NotEnabled, row)
               else if !c.allowed then Refused(TooManyRequests, row)
               else if (code != "" && recovery != "") || (code == "" && recovery == "") then Refused(InvalidParams, row)
               else if code != "" && step.Some? then (Answered(answer), row.(lastStep := step.value))
               else if recovery != "" && index.Some? then
                 (Answered(answer), row.(codes := Some(RemoveAt(row.List(), index.value))))
               else Refused(CodeInvalid, row)
  {
    hide VerifyPassword, NeedsRehash, HashPassword, VerifyTOTP, FirstMatch, RunThread, StepCut;
    RunFour(w, Start(VerifyRequest(token, code, recovery)), row, c, c, c, c);
    FirstStep(w, VerifyRequest(token, code, recovery), row, c);
    forall answer, r: Row
      ensures StepCut(w, Answered(answer), r, c) == (Answered(answer), r)
    {
      AnsweredStays(w, answer, r, c);
    }
    VerifyGoesOn(w, code, recovery, row, c);
    if !c.inp.fault {
      VerifySpends(w, code, recovery, row, c);
    }
  }

  lemma VerifyGoesOn(w: World, code: string, recovery: string, row: Row, c: Cut)
    requires Calm(c)
    ensures StepCut(w, VerifyLimit(row, code, recovery), row, c)
         == (if !c.allowed then Fail(TooManyRequests)
             else if code != "" && recovery == "" then VerifyCheck(row, code)
             else if code == "" && recovery != "" then VerifyList(row, recovery)
             else Fail(InvalidParams), row)
    ensures var step := VerifyTOTP(w, row.secret, code, row.lastStep, c.wall);
            StepCut(w, VerifyCheck(row, code), row, c)
            == (if step.None? then Fail(CodeInvalid) else VerifyConsume(row, step.value), row)
  {
    hide VerifyPassword, NeedsRehash, HashPassword, VerifyTOTP, FirstMatch;
  }

  lemma VerifySpends(w: World, code: string, recovery: string, row: Row, c: Cut)
    requires Calm(c) && !c.inp.fault
    ensures var step := VerifyTOTP(w, row.secret, code, row.lastStep, c.wall);
            var granted := IssueTokens(w, View(row, c.wall, c.allowed), c.inp);
            step.Some? ==> StepCut(w, VerifyConsume(row, step.value), row, c) == (granted, row.(lastStep := step.value))
    ensures var index := FirstMatch(w, row.List(), recovery);
            StepCut(w, VerifyList(row, recovery), row, c)
            == (if index.None? then Fail(CodeInvalid) else VerifySwap(row, row.List(), index.value), row)
    ensures var index := FirstMatch(w, row.List(), recovery);
            var granted := IssueTokens(w, View(row, c.wall, c.allowed), c.inp);
            index.Some? ==> StepCut(w, VerifySwap(row, row.List(), index.value), row, c)
                            == (granted, row.(codes := Some(RemoveAt(row.List(), index.value))))
  {
    hide VerifyPassword, NeedsRehash, HashPassword, VerifyTOTP, FirstMatch, IssueTokens;
    LaterStep(w, row.secret, code, row.lastStep, c.wall);
  }

  /** What the window accepts is later than what was recorded. */
  lemma LaterStep(w: World, secret: string, code: string, lastStep: int, now: int)
    ensures var step := VerifyTOTP(w, secret, code, lastStep, now); step.Some? ==> lastStep < step.value
  {
  }

  /** A refresh: granted on a live token of the session key that says it is one. */
  lemma RefreshAlone(w: World, token: Token, row: Row, c: Cut)
    requires Calm(c)
    ensures var end := Alone(w, RefreshRequest(token), row, c);
            var live := token.key == SessionKey && token.issuer == "refresh" && c.wall < token.expires;
            && end.1 == row
            && end.0.Answered?
            && end.0.answer == if !live then Failure(TokenRejected)
                               else if c.inp.signingFails then Failure(ServiceError)
                               else SessionOf(w, c.wall)
  {
    hide VerifyPassword, NeedsRehash, HashPassword, VerifyTOTP, FirstMatch, RunThread;
    RunFour(w, Start(RefreshRequest(token)), row, c, c, c, c);
    FirstStep(w, RefreshRequest(token), row, c);
  }

  /** A sign-in: past the password the hash is swapped if it has to be, a pending secret goes, and the
      answer follows the switch, if it can be signed. */
  lemma LoginAlone(w: World, password: string, row: Row, c: Cut)
    requires LawfulWorld(w) && Calm(c)
    ensures var end := Alone(w, LoginRequest(password), row, c);
            if !c.inp.loginAllowed then end == Refused(TooManyRequests, row)
            else if password == "" then end == Refused(InvalidParams, row)
            else if c.inp.fault then end == Refused(UserNotExist, row)
            else if !VerifyPassword(w.pw, row.password, password) then end == Refused(PasswordInvalid, row)
            else
              && end.0.Answered?
              && end.0.answer == (if c.inp.signingFails then Failure(ServiceError)
                                  else if row.enabled then PreAuth(Token(PreAuthKey, "2fa", c.wall + 300))
                                  else SessionOf(w, c.wall))
              && end.1 == row.(password := end.1.password, secret := if row.enabled then row.secret else "")
              && VerifyPassword(w.pw, end.1.password, password) && !NeedsRehash(w.pw, end.1.password)
              && (!NeedsRehash(w.pw, row.password) ==> end.1.password == row.password)
  {
    hide VerifyPassword, NeedsRehash, HashPassword, RunThread, Lawful, ReadsBack, StepCut;
    var request := LoginRequest(password);
    RunFour(w, Start(request), row, c, c, c, c);
    FirstStep(w, request, row, c);
    forall answer, r: Row
      ensures StepCut(w, Answered(answer), r, c) == (Answered(answer), r)
    {
      AnsweredStays(w, answer, r, c);
    }
    if !c.inp.fault {
      HashVerifies(w.pw, password, c.inp.passwordSalt);
      SwapsAlone(w, password, row, c);
      SettlesAlone(w, row, row, c);
      SettlesAlone(w, row, row.(password := HashPassword(w.pw, password, c.inp.passwordSalt)), c);
    }
  }

  lemma SwapsAlone(w: World, password: string, row: Row, c: Cut)
    requires Calm(c) && !c.inp.fault
    ensures StepCut(w, LoginSwap(row, password), row, c)
         == (AfterUpgrade(w, View(row, c.wall, c.allowed), c.inp, row),
             row.(password := HashPassword(w.pw, password, c.inp.passwordSalt)))
  {
    hide VerifyPassword, NeedsRehash, HashPassword;
  }

  lemma SettlesAlone(w: World, user: Row, row: Row, c: Cut)
    requires Calm(c) && !c.inp.fault && row.enabled == user.enabled && row.secret == user.secret
    ensures !user.enabled ==>
              StepCut(w, LoginClear(user), row, c)
              == (FinishLogin(w, View(row, c.wall, c.allowed), c.inp, user), row.(secret := ""))
  {
    hide VerifyPassword, NeedsRehash, HashPassword;
  }
}
