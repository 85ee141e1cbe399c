/** The handlers as the source writes them, each run once against the stored row while other requests'
    statements run between its own. Each ends where the step-by-step thread of Handlers ends. */
module Requests {
  import opened Prelude
  import opened World
  import opened Password
  import opened Rows
  import opened Totp
  import opened Recovery
  import opened Json
  import opened UserStore
  import opened Handlers

  /** Around each step: other requests' statements, and nothing but bcrypt hashes in them. */
  ghost predicate Schedule(cuts: seq<Cut>, steps: nat) {
    && |cuts| >= steps && GoodCuts(cuts)
    && forall k, j :: 0 <= k < |cuts| && 0 <= j < |cuts[k].others| ==> HashesOnly(cuts[k].others[j])
  }

  /** After k steps the thread is t and the row is row. */
  ghost predicate At(w: World, start: Thread, row0: Row, cuts: seq<Cut>, k: nat, t: Thread, row: Row)
    requires GoodCuts(cuts) && WellFormed(start)
  {
    k <= |cuts| && RunThread(w, start, row0, cuts[..k]) == (t, row)
  }

  lemma AtStart(w: World, start: Thread, row0: Row, cuts: seq<Cut>)
    requires GoodCuts(cuts) && WellFormed(start)
    ensures At(w, start, row0, cuts, 0, start, row0)
  {
  }

  lemma AtNext(w: World, start: Thread, row0: Row, cuts: seq<Cut>, k: nat, t: Thread, row: Row)
    requires GoodCuts(cuts) && WellFormed(start) && WellFormed(t) && k < |cuts|
    requires At(w, start, row0, cuts, k, t, row)
    ensures var r := StepCut(w, t, row, cuts[k]);
            At(w, start, row0, cuts, k + 1, r.0, r.1)
  {
    assert cuts[..k + 1][..k] == cuts[..k];
  }

  /** What a step sees when the row is as it stands at its cut. */
  function Seen(row: Row, cut: Cut): View {
    View(row, cut.wall, cut.allowed)
  }

  // ---- each step, spelled out ----

  lemma AtVerifyLimit(w: World, start: Thread, row0: Row, cuts: seq<Cut>, k: nat, row: Row,
                      user: Row, code: string, recovery: string)
    requires GoodCuts(cuts) && WellFormed(start) && k < |cuts|
    requires At(w, start, row0, cuts, k, VerifyLimit(user, code, recovery), row)
    ensures var now, cut := ExecAll(row, cuts[k].others), cuts[k];
            At(w, start, row0, cuts, k + 1,
               if !cut.allowed then Fail(TooManyRequests)
               else if code != "" && recovery == "" then VerifyCheck(user, code)
               else if recovery != "" && code == "" then VerifyList(user, recovery)
               else Fail(InvalidParams),
               now)
  {
    hide HashPassword, VerifyPassword, NeedsRehash, VerifyTOTP, FirstMatch;
    AtNext(w, start, row0, cuts, k, VerifyLimit(user, code, recovery), row);
  }

  lemma AtVerifyCheck(w: World, start: Thread, row0: Row, cuts: seq<Cut>, k: nat, row: Row, user: Row, code: string)
    requires GoodCuts(cuts) && WellFormed(start) && k < |cuts|
    requires At(w, start, row0, cuts, k, VerifyCheck(user, code), row)
    ensures var now, cut := ExecAll(row, cuts[k].others), cuts[k];
            At(w, start, row0, cuts, k + 1,
               match VerifyTOTP(w, user.secret, code, user.lastStep, cut.wall)
               case None => Fail(CodeInvalid)
               case Some(step) => VerifyConsume(user, step),
               now)
  {
    hide HashPassword, VerifyPassword, NeedsRehash, VerifyTOTP, FirstMatch;
    AtNext(w, start, row0, cuts, k, VerifyCheck(user, code), row);
  }

  lemma AtVerifyConsume(w: World, start: Thread, row0: Row, cuts: seq<Cut>, k: nat, row: Row, user: Row, step: int)
    requires GoodCuts(cuts) && WellFormed(start) && k < |cuts|
    requires At(w, start, row0, cuts, k, VerifyConsume(user, step), row)
    ensures var now, cut := ExecAll(row, cuts[k].others), cuts[k];
            var stmt := ConsumeStep(step);
            At(w, start, row0, cuts, k + 1,
               if Lands(now, stmt, cut.inp.fault) then IssueTokens(w, Seen(now, cut), cut.inp) else Fail(CodeInvalid),
               Exec(now, stmt, cut.inp.fault))
  {
    hide HashPassword, VerifyPassword, NeedsRehash, VerifyTOTP, FirstMatch;
    AtNext(w, start, row0, cuts, k, VerifyConsume(user, step), row);
  }

  lemma AtVerifyList(w: World, start: Thread, row0: Row, cuts: seq<Cut>, k: nat, row: Row,
                     user: Row, recovery: string)
    requires GoodCuts(cuts) && WellFormed(start) && k < |cuts|
    requires At(w, start, row0, cuts, k, VerifyList(user, recovery), row)
    ensures var now, cut := ExecAll(row, cuts[k].others), cuts[k];
            At(w, start, row0, cuts, k + 1,
               if cut.inp.fault then Fail(CodeInvalid) else
               match FirstMatch(w, now.List(), recovery)
               case None => Fail(CodeInvalid)
               case Some(i) => VerifySwap(user, now.List(), i),
               now)
  {
    hide HashPassword, VerifyPassword, NeedsRehash, VerifyTOTP, FirstMatch;
    AtNext(w, start, row0, cuts, k, VerifyList(user, recovery), row);
  }

  lemma AtVerifySwap(w: World, start: Thread, row0: Row, cuts: seq<Cut>, k: nat, row: Row,
                     user: Row, prev: seq<string>, i: nat)
    requires GoodCuts(cuts) && WellFormed(start) && k < |cuts|
    requires i < |prev|
    requires At(w, start, row0, cuts, k, VerifySwap(user, prev, i), row)
    ensures var now, cut := ExecAll(row, cuts[k].others), cuts[k];
            var stmt := ReplaceCodes(prev, RemoveAt(prev, i));
            At(w, start, row0, cuts, k + 1,
               if Lands(now, stmt, cut.inp.fault) then IssueTokens(w, Seen(now, cut), cut.inp) else Fail(CodeInvalid),
               Exec(now, stmt, cut.inp.fault))
  {
    hide HashPassword, VerifyPassword, NeedsRehash, VerifyTOTP, FirstMatch;
    AtNext(w, start, row0, cuts, k, VerifySwap(user, prev, i), row);
  }

  lemma AtSetupLimit(w: World, start: Thread, row0: Row, cuts: seq<Cut>, k: nat, row: Row,
                     user: Row, password: string)
    requires GoodCuts(cuts) && WellFormed(start) && k < |cuts|
    requires At(w, start, row0, cuts, k, SetupLimit(user, password), row)
    ensures var now, cut := ExecAll(row, cuts[k].others), cuts[k];
            At(w, start, row0, cuts, k + 1,
               if !cut.allowed then Fail(TooManyRequests) else SetupCheck(user, password),
               now)
  {
    hide HashPassword, VerifyPassword, NeedsRehash, VerifyTOTP, FirstMatch;
    AtNext(w, start, row0, cuts, k, SetupLimit(user, password), row);
  }

  lemma AtSetupCheck(w: World, start: Thread, row0: Row, cuts: seq<Cut>, k: nat, row: Row,
                     user: Row, password: string)
    requires GoodCuts(cuts) && WellFormed(start) && k < |cuts|
    requires At(w, start, row0, cuts, k, SetupCheck(user, password), row)
    ensures var now, cut := ExecAll(row, cuts[k].others), cuts[k];
            At(w, start, row0, cuts, k + 1,
               if !VerifyPassword(w.pw, user.password, password) then Fail(CodeInvalid)
               else if cut.inp.generatorFails then Fail(ServiceError)
               else SetupWrite(user, cut.inp.secret),
               now)
  {
    hide HashPassword, VerifyPassword, NeedsRehash, VerifyTOTP, FirstMatch;
    AtNext(w, start, row0, cuts, k, SetupCheck(user, password), row);
  }

  lemma AtSetupWrite(w: World, start: Thread, row0: Row, cuts: seq<Cut>, k: nat, row: Row, user: Row, secret: string)
    requires GoodCuts(cuts) && WellFormed(start) && k < |cuts|
    requires At(w, start, row0, cuts, k, SetupWrite(user, secret), row)
    ensures var now, cut := ExecAll(row, cuts[k].others), cuts[k];
            var stmt := SetPending(secret);
            At(w, start, row0, cuts, k + 1,
               if Lands(now, stmt, cut.inp.fault) then Answered(PendingSecret(secret)) else Fail(AlreadyEnabled),
               Exec(now, stmt, cut.inp.fault))
  {
    hide HashPassword, VerifyPassword, NeedsRehash, VerifyTOTP, FirstMatch;
    AtNext(w, start, row0, cuts, k, SetupWrite(user, secret), row);
  }

  lemma AtEnableLimit(w: World, start: Thread, row0: Row, cuts: seq<Cut>, k: nat, row: Row, user: Row, code: string)
    requires GoodCuts(cuts) && WellFormed(start) && k < |cuts|
    requires At(w, start, row0, cuts, k, EnableLimit(user, code), row)
    ensures var now, cut := ExecAll(row, cuts[k].others), cuts[k];
            At(w, start, row0, cuts, k + 1,
               if !cut.allowed then Fail(TooManyRequests) else EnableCheck(user, code),
               now)
  {
    hide HashPassword, VerifyPassword, NeedsRehash, VerifyTOTP, FirstMatch;
    AtNext(w, start, row0, cuts, k, EnableLimit(user, code), row);
  }

  lemma AtEnableCheck(w: World, start: Thread, row0: Row, cuts: seq<Cut>, k: nat, row: Row, user: Row, code: string)
    requires GoodCuts(cuts) && WellFormed(start) && k < |cuts|
    requires At(w, start, row0, cuts, k, EnableCheck(user, code), row)
    ensures var now, cut := ExecAll(row, cuts[k].others), cuts[k];
            At(w, start, row0, cuts, k + 1,
               match VerifyTOTP(w, user.secret, code, 0, cut.wall)
               case None => Fail(CodeInvalid)
               case Some(step) =>
                 if cut.inp.generatorFails then Fail(ServiceError)
                 else EnableWrite(user, step, PlainCodes(cut.inp.raws), HashesOf(w, cut.inp.raws, cut.inp.salts)),
               now)
  {
    hide HashPassword, VerifyPassword, NeedsRehash, VerifyTOTP, FirstMatch;
    AtNext(w, start, row0, cuts, k, EnableCheck(user, code), row);
  }

  lemma AtEnableWrite(w: World, start: Thread, row0: Row, cuts: seq<Cut>, k: nat, row: Row,
                      user: Row, step: int, plain: seq<string>, hashes: seq<string>)
    requires GoodCuts(cuts) && WellFormed(start) && k < |cuts|
    requires At(w, start, row0, cuts, k, EnableWrite(user, step, plain, hashes), row)
    ensures var now, cut := ExecAll(row, cuts[k].others), cuts[k];
            var stmt := Enable(user.secret, step, hashes);
            At(w, start, row0, cuts, k + 1,
               if Lands(now, stmt, cut.inp.fault) then Answered(RecoveryCodes(plain)) else EnableReread,
               Exec(now, stmt, cut.inp.fault))
  {
    hide HashPassword, VerifyPassword, NeedsRehash, VerifyTOTP, FirstMatch;
    AtNext(w, start, row0, cuts, k, EnableWrite(user, step, plain, hashes), row);
  }

  lemma AtEnableReread(w: World, start: Thread, row0: Row, cuts: seq<Cut>, k: nat, row: Row)
    requires GoodCuts(cuts) && WellFormed(start) && k < |cuts|
    requires At(w, start, row0, cuts, k, EnableReread, row)
    ensures var now, cut := ExecAll(row, cuts[k].others), cuts[k];
            At(w, start, row0, cuts, k + 1,
               if !cut.inp.fault && now.enabled then Fail(AlreadyEnabled) else Fail(NotEnabled),
               now)
  {
    hide HashPassword, VerifyPassword, NeedsRehash, VerifyTOTP, FirstMatch;
    AtNext(w, start, row0, cuts, k, EnableReread, row);
  }

  lemma AtDisableLimit(w: World, start: Thread, row0: Row, cuts: seq<Cut>, k: nat, row: Row,
                       user: Row, code: string, password: string)
    requires GoodCuts(cuts) && WellFormed(start) && k < |cuts|
    requires At(w, start, row0, cuts, k, DisableLimit(user, code, password), row)
    ensures var now, cut := ExecAll(row, cuts[k].others), cuts[k];
            At(w, start, row0, cuts, k + 1,
               if !cut.allowed then Fail(TooManyRequests) else DisableCheck(user, code, password),
               now)
  {
    hide HashPassword, VerifyPassword, NeedsRehash, VerifyTOTP, FirstMatch;
    AtNext(w, start, row0, cuts, k, DisableLimit(user, code, password), row);
  }

  lemma AtDisableCheck(w: World, start: Thread, row0: Row, cuts: seq<Cut>, k: nat, row: Row,
                       user: Row, code: string, password: string)
    requires GoodCuts(cuts) && WellFormed(start) && k < |cuts|
    requires At(w, start, row0, cuts, k, DisableCheck(user, code, password), row)
    ensures var now, cut := ExecAll(row, cuts[k].others), cuts[k];
            At(w, start, row0, cuts, k + 1,
               if (if code != "" then VerifyTOTP(w, user.secret, code, user.lastStep, cut.wall).Some?
                   else VerifyPassword(w.pw, user.password, password))
               then DisableWrite(user) else Fail(CodeInvalid),
               now)
  {
    hide HashPassword, VerifyPassword, NeedsRehash, VerifyTOTP, FirstMatch;
    AtNext(w, start, row0, cuts, k, DisableCheck(user, code, password), row);
  }

  lemma AtDisableWrite(w: World, start: Thread, row0: Row, cuts: seq<Cut>, k: nat, row: Row, user: Row)
    requires GoodCuts(cuts) && WellFormed(start) && k < |cuts|
    requires At(w, start, row0, cuts, k, DisableWrite(user), row)
    ensures var now, cut := ExecAll(row, cuts[k].others), cuts[k];
            var stmt := Disable(user.secret);
            At(w, start, row0, cuts, k + 1,
               if Lands(now, stmt, cut.inp.fault) then Answered(Success) else Fail(NotEnabled),
               Exec(now, stmt, cut.inp.fault))
  {
    hide HashPassword, VerifyPassword, NeedsRehash, VerifyTOTP, FirstMatch;
    AtNext(w, start, row0, cuts, k, DisableWrite(user), row);
  }

  lemma AtLoginSwap(w: World, start: Thread, row0: Row, cuts: seq<Cut>, k: nat, row: Row, user: Row, password: string)
    requires GoodCuts(cuts) && WellFormed(start) && k < |cuts|
    requires At(w, start, row0, cuts, k, LoginSwap(user, password), row)
    ensures var now, cut := ExecAll(row, cuts[k].others), cuts[k];
            var stmt := ReplacePassword(user.password, HashPassword(w.pw, password, cut.inp.passwordSalt));
            At(w, start, row0, cuts, k + 1,
               AfterUpgrade(w, Seen(now, cut), cut.inp, user),
               Exec(now, stmt, cut.inp.fault))
  {
    hide HashPassword, VerifyPassword, NeedsRehash, VerifyTOTP, FirstMatch;
    AtNext(w, start, row0, cuts, k, LoginSwap(user, password), row);
  }

  lemma AtLoginClear(w: World, start: Thread, row0: Row, cuts: seq<Cut>, k: nat, row: Row, user: Row)
    requires GoodCuts(cuts) && WellFormed(start) && k < |cuts|
    requires At(w, start, row0, cuts, k, LoginClear(user), row)
    ensures var now, cut := ExecAll(row, cuts[k].others), cuts[k];
            var stmt := ClearPending(user.secret);
            At(w, start, row0, cuts, k + 1,
               if Lands(now, stmt, cut.inp.fault) then FinishLogin(w, Seen(now, cut), cut.inp, user) else LoginReread,
               Exec(now, stmt, cut.inp.fault))
  {
    hide HashPassword, VerifyPassword, NeedsRehash, VerifyTOTP, FirstMatch;
    AtNext(w, start, row0, cuts, k, LoginClear(user), row);
  }

  lemma AtLoginReread(w: World, start: Thread, row0: Row, cuts: seq<Cut>, k: nat, row: Row)
    requires GoodCuts(cuts) && WellFormed(start) && k < |cuts|
    requires At(w, start, row0, cuts, k, LoginReread, row)
    ensures var now, cut := ExecAll(row, cuts[k].others), cuts[k];
            At(w, start, row0, cuts, k + 1,
               if cut.inp.fault then Fail(PasswordInvalid) else FinishLogin(w, Seen(now, cut), cut.inp, now),
               now)
  {
    hide HashPassword, VerifyPassword, NeedsRehash, VerifyTOTP, FirstMatch;
    AtNext(w, start, row0, cuts, k, LoginReread, row);
  }

  lemma AtPasswordWrite(w: World, start: Thread, row0: Row, cuts: seq<Cut>, k: nat, row: Row,
                        hash: string, password: string)
    requires GoodCuts(cuts) && WellFormed(start) && k < |cuts|
    requires At(w, start, row0, cuts, k, PasswordWrite(hash, password), row)
    ensures var now, cut := ExecAll(row, cuts[k].others), cuts[k];
            var stmt := UpdatePassword(hash);
            At(w, start, row0, cuts, k + 1,
               if Lands(now, stmt, cut.inp.fault) then Answered(Success) else Fail(ServiceError),
               Exec(now, stmt, cut.inp.fault))
  {
    hide HashPassword, VerifyPassword, NeedsRehash, VerifyTOTP, FirstMatch;
    AtNext(w, start, row0, cuts, k, PasswordWrite(hash, password), row);
  }

  lemma AtBegin(w: World, request: Request, row0: Row, cuts: seq<Cut>)
    requires GoodCuts(cuts) && |cuts| > 0
    ensures var now := ExecAll(row0, cuts[0].others);
            At(w, Start(request), row0, cuts, 1,
               Begin(w, request, View(now, cuts[0].wall, cuts[0].allowed), cuts[0].inp), now)
  {
    AtStart(w, Start(request), row0, cuts);
    AtNext(w, Start(request), row0, cuts, 0, Start(request), row0);
  }

  /** GetUserAllInfoById and GetUserAllInfoByName: a failing read looks like no such user. */
  method GetUserAllInfo(db: UserStore, fault: bool) returns (user: Option<Row>)
    requires db.Valid()
    ensures user == if fault then None else Some(db.View())
  {
    if fault {
      return None;
    }
    var codes := if db.recoveryCodes.None? then None else Some(Unmarshal(db.recoveryCodes.value));
    user := Some(Row(db.password, db.totpSecret, db.totpEnabled, db.totpLastStep, codes));
  }

  method SignTokens(w: World, ghost row: Row, cut: Cut) returns (answer: Answer)
    ensures Answered(answer) == IssueTokens(w, Seen(row, cut), cut.inp)
  {
    if cut.inp.signingFails {
      return Failure(ServiceError);
    }
    var access := Token(SessionKey, w.accessIssuer, cut.wall + ACCESS_TTL);
    var refresh := Token(SessionKey, "refresh", cut.wall + w.refreshLifetime);
    answer := Session(access, refresh);
  }

  method PostUser2FADisable(w: World, db: UserStore, code: string, password: string, cuts: seq<Cut>)
    returns (answer: Answer, used: nat)
    requires db.Valid() && Schedule(cuts, 4)
    modifies db
    ensures db.Valid()
    ensures At(w, Start(DisableRequest(code, password)), old(db.View()), cuts, used, Answered(answer), db.View())
  {
    hide At, RunThread, StepCut, VerifyPassword, NeedsRehash, HashPassword, VerifyTOTP, FirstMatch, ExecAll, Unmarshal;
    ghost var start, row0 := Start(DisableRequest(code, password)), db.View();
    AtBegin(w, start.request, row0, cuts);
    used := 1;
    db.Others(cuts[0].others);
    var found := GetUserAllInfo(db, cuts[0].inp.fault);
    if found.None? {
      return Failure(UserNotExist), used;
    }
    var user := found.value;
    if !user.enabled {
      return Failure(NotEnabled), used;
    }
    if (code == "") == (password == "") {
      return Failure(InvalidParams), used;
    }
    AtDisableLimit(w, start, row0, cuts, 1, db.View(), user, code, password);
    used := 2;
    db.Others(cuts[1].others);
    if !cuts[1].allowed {
      return Failure(TooManyRequests), used;
    }
    AtDisableCheck(w, start, row0, cuts, 2, db.View(), user, code, password);
    used := 3;
    db.Others(cuts[2].others);
    var valid;
    if code != "" {
      var _, ok := ScanWindow(w, user.secret, code, user.lastStep, cuts[2].wall);
      valid := ok;
    } else {
      valid := VerifyPassword(w.pw, user.password, password);
    }
    if !valid {
      return Failure(CodeInvalid), used;
    }
    AtDisableWrite(w, start, row0, cuts, 3, db.View(), user);
    used := 4;
    db.Others(cuts[3].others);
    var disabled := db.DisableUserTOTP(user.secret, cuts[3].inp.fault);
    answer := if disabled then Success else Failure(NotEnabled);
  }

  method PostUser2FASetup(w: World, db: UserStore, password: string, cuts: seq<Cut>)
    returns (answer: Answer, used: nat)
    requires db.Valid() && Schedule(cuts, 4)
    modifies db
    ensures db.Valid()
    ensures At(w, Start(SetupRequest(password)), old(db.View()), cuts, used, Answered(answer), db.View())
  {
    hide At, RunThread, StepCut, VerifyPassword, NeedsRehash, HashPassword, VerifyTOTP, FirstMatch, ExecAll, Unmarshal;
    ghost var start, row0 := Start(SetupRequest(password)), db.View();
    AtBegin(w, start.request, row0, cuts);
    used := 1;
    db.Others(cuts[0].others);
    var found := GetUserAllInfo(db, cuts[0].inp.fault);
    if found.None? {
      return Failure(UserNotExist), used;
    }
    var user := found.value;
    if user.enabled {
      return Failure(AlreadyEnabled), used;
    }
    if password == "" {
      return Failure(InvalidParams), used;
    }
    AtSetupLimit(w, start, row0, cuts, 1, db.View(), user, password);
    used := 2;
    db.Others(cuts[1].others);
    if !cuts[1].allowed {
      return Failure(TooManyRequests), used;
    }
    AtSetupCheck(w, start, row0, cuts, 2, db.View(), user, password);
    used := 3;
    db.Others(cuts[2].others);
    if !VerifyPassword(w.pw, user.password, password) {
      return Failure(CodeInvalid), used;
    }
    if cuts[2].inp.generatorFails {
      return Failure(ServiceError), used;
    }
    var secret := cuts[2].inp.secret;
    AtSetupWrite(w, start, row0, cuts, 3, db.View(), user, secret);
    used := 4;
    db.Others(cuts[3].others);
    var stored := db.SetPendingTOTP(secret, cuts[3].inp.fault);
    answer := if stored then PendingSecret(secret) else Failure(AlreadyEnabled);
  }

  method DrawRecoveryCodes(w: World, inp: Input) returns (plain: seq<string>, hashes: seq<string>, err: bool)
    requires LawfulWorld(w) && GoodInput(inp)
    ensures err == inp.generatorFails
    ensures !err ==> plain == PlainCodes(inp.raws) && hashes == HashesOf(w, inp.raws, inp.salts) && HashTexts(hashes)
  {
    var raws := seq(CODES, i requires 0 <= i < CODES => if inp.generatorFails then None else Some(inp.raws[i]));
    var salts := seq(CODES, i requires 0 <= i < CODES => Some(inp.salts[i]));
    plain, hashes, err := NewRecoveryCodes(w, raws, salts);
    if inp.generatorFails {
      assert raws[0].None?;
    } else {
      assert plain == PlainCodes(inp.raws);
      assert hashes == HashesOf(w, inp.raws, inp.salts);
    }
  }

  method PostUser2FAEnable(w: World, db: UserStore, code: string, cuts: seq<Cut>)
    returns (answer: Answer, used: nat)
    requires LawfulWorld(w) && db.Valid() && Schedule(cuts, 5)
    modifies db
    ensures db.Valid()
    ensures At(w, Start(EnableRequest(code)), old(db.View()), cuts, used, Answered(answer), db.View())
  {
    hide At, RunThread, StepCut, VerifyPassword, NeedsRehash, HashPassword, VerifyTOTP, FirstMatch, ExecAll, Unmarshal;
    ghost var start, row0 := Start(EnableRequest(code)), db.View();
    AtBegin(w, start.request, row0, cuts);
    used := 1;
    db.Others(cuts[0].others);
    var found := GetUserAllInfo(db, cuts[0].inp.fault);
    if found.None? {
      return Failure(UserNotExist), used;
    }
    var user := found.value;
    if user.enabled {
      return Failure(AlreadyEnabled), used;
    }
    if user.secret == "" {
      return Failure(NotEnabled), used;
    }
    AtEnableLimit(w, start, row0, cuts, 1, db.View(), user, code);
    used := 2;
    db.Others(cuts[1].others);
    if !cuts[1].allowed {
      return Failure(TooManyRequests), used;
    }
    AtEnableCheck(w, start, row0, cuts, 2, db.View(), user, code);
    used := 3;
    db.Others(cuts[2].others);
    var step, valid := ScanWindow(w, user.secret, code, 0, cuts[2].wall);
    if !valid {
      return Failure(CodeInvalid), used;
    }
    var plain, hashes, err := DrawRecoveryCodes(w, cuts[2].inp);
    if err {
      return Failure(ServiceError), used;
    }
    AtEnableWrite(w, start, row0, cuts, 3, db.View(), user, step, plain, hashes);
    used := 4;
    db.Others(cuts[3].others);
    var enabled := db.EnableUserTOTP(user.secret, step, hashes, cuts[3].inp.fault);
    if enabled {
      return RecoveryCodes(plain), used;
    }
    AtEnableReread(w, start, row0, cuts, 4, db.View());
    used := 5;
    db.Others(cuts[4].others);
    var again := GetUserAllInfo(db, cuts[4].inp.fault);
    if again.Some? && again.value.enabled {
      return Failure(AlreadyEnabled), used;
    }
    answer := Failure(NotEnabled);
  }

  method PostUser2FAVerify(w: World, db: UserStore, token: Token, code: string, recovery: string, cuts: seq<Cut>)
    returns (answer: Answer, used: nat)
    requires db.Valid() && Schedule(cuts, 4)
    modifies db
    ensures db.Valid()
    ensures At(w, Start(VerifyRequest(token, code, recovery)), old(db.View()), cuts, used, Answered(answer), db.View())
  {
    hide At, RunThread, StepCut, VerifyPassword, NeedsRehash, HashPassword, VerifyTOTP, FirstMatch, ExecAll, Unmarshal;
    ghost var start, row0 := Start(VerifyRequest(token, code, recovery)), db.View();
    AtBegin(w, start.request, row0, cuts);
    used := 1;
    db.Others(cuts[0].others);
    if !ParsePreAuthToken(token, cuts[0].wall) {
      return Failure(TokenRejected), used;
    }
    var found := GetUserAllInfo(db, cuts[0].inp.fault);
    if found.None? || !found.value.enabled {
      return Failure(NotEnabled), used;
    }
    var user := found.value;
    AtVerifyLimit(w, start, row0, cuts, 1, db.View(), user, code, recovery);
    used := 2;
    db.Others(cuts[1].others);
    if !cuts[1].allowed {
      return Failure(TooManyRequests), used;
    }
    if code != "" && recovery == "" {
      answer, used := VerifyByCode(w, db, start, row0, user, code, cuts);
    } else if recovery != "" && code == "" {
      answer, used := VerifyByRecovery(w, db, start, row0, user, recovery, cuts);
    } else {
      return Failure(InvalidParams), used;
    }
  }

  method VerifyByCode(w: World, db: UserStore, ghost start: Thread, ghost row0: Row,
                      user: Row, code: string, cuts: seq<Cut>)
    returns (answer: Answer, used: nat)
    requires db.Valid() && Schedule(cuts, 4) && WellFormed(start)
    requires At(w, start, row0, cuts, 2, VerifyCheck(user, code), db.View())
    modifies db
    ensures db.Valid() && At(w, start, row0, cuts, used, Answered(answer), db.View())
  {
    hide At, RunThread, StepCut, VerifyPassword, NeedsRehash, HashPassword, VerifyTOTP, FirstMatch, ExecAll, Unmarshal,
         IssueTokens;
    AtVerifyCheck(w, start, row0, cuts, 2, db.View(), user, code);
    used := 3;
    db.Others(cuts[2].others);
    var step, valid := ScanWindow(w, user.secret, code, user.lastStep, cuts[2].wall);
    if !valid {
      return Failure(CodeInvalid), used;
    }
    AtVerifyConsume(w, start, row0, cuts, 3, db.View(), user, step);
    used := 4;
    db.Others(cuts[3].others);
    ghost var now := db.View();
    var consumed := db.ConsumeTOTPStep(step, cuts[3].inp.fault);
    if !consumed {
      return Failure(CodeInvalid), used;
    }
    answer := SignTokens(w, now, cuts[3]);
  }

  /** UseRecoveryCode inlined at its two statements. */
  method VerifyByRecovery(w: World, db: UserStore, ghost start: Thread, ghost row0: Row,
                          user: Row, recovery: string, cuts: seq<Cut>)
    returns (answer: Answer, used: nat)
    requires db.Valid() && Schedule(cuts, 4) && WellFormed(start)
    requires At(w, start, row0, cuts, 2, VerifyList(user, recovery), db.View())
    modifies db
    ensures db.Valid() && At(w, start, row0, cuts, used, Answered(answer), db.View())
  {
    hide At, RunThread, StepCut, VerifyPassword, NeedsRehash, HashPassword, VerifyTOTP, FirstMatch, ExecAll, Unmarshal,
         IssueTokens;
    AtVerifyList(w, start, row0, cuts, 2, db.View(), user, recovery);
    used := 3;
    db.Others(cuts[2].others);
    if cuts[2].inp.fault {
      return Failure(CodeInvalid), used;
    }
    var prev, remaining, found := db.RemoveCode(w, recovery);
    if !found {
      return Failure(CodeInvalid), used;
    }
    AtVerifySwap(w, start, row0, cuts, 3, db.View(), user, prev, FirstMatch(w, prev, recovery).value);
    used := 4;
    db.Others(cuts[3].others);
    ghost var now := db.View();
    var swapped := db.ReplaceRecoveryCodes(prev, remaining, cuts[3].inp.fault);
    if !swapped {
      return Failure(CodeInvalid), used;
    }
    answer := SignTokens(w, now, cuts[3]);
  }

  method PostUserLogin(w: World, db: UserStore, password: string, cuts: seq<Cut>)
    returns (answer: Answer, used: nat)
    requires db.Valid() && Schedule(cuts, 4)
    modifies db
    ensures db.Valid()
    ensures At(w, Start(LoginRequest(password)), old(db.View()), cuts, used, Answered(answer), db.View())
  {
    hide At, RunThread, StepCut, VerifyPassword, NeedsRehash, HashPassword, VerifyTOTP, FirstMatch, ExecAll, Unmarshal,
         IssueTokens;
    ghost var start, row0 := Start(LoginRequest(password)), db.View();
    AtBegin(w, start.request, row0, cuts);
    used := 1;
    db.Others(cuts[0].others);
    ghost var now := db.View();
    if !cuts[0].inp.loginAllowed {
      return Failure(TooManyRequests), used;
    }
    if password == "" {
      return Failure(InvalidParams), used;
    }
    var found := GetUserAllInfo(db, cuts[0].inp.fault);
    if found.None? {
      return Failure(UserNotExist), used;
    }
    var user := found.value;
    if !VerifyPassword(w.pw, user.password, password) {
      return Failure(PasswordInvalid), used;
    }
    // upgradePassword
    if NeedsRehash(w.pw, user.password) {
      AtLoginSwap(w, start, row0, cuts, 1, db.View(), user, password);
      used := 2;
      db.Others(cuts[1].others);
      now := db.View();
      var hash := HashPassword(w.pw, password, cuts[1].inp.passwordSalt);
      var _ := db.ReplacePasswordHash(user.password, hash, cuts[1].inp.fault);
    }
    if !user.enabled && user.secret != "" {
      answer, used := ClearThenFinish(w, db, start, row0, user, used, cuts);
    } else {
      answer := FinishWith(w, now, user, cuts[used - 1]);
    }
  }

  method FinishWith(w: World, ghost row: Row, user: Row, cut: Cut) returns (answer: Answer)
    ensures Answered(answer) == FinishLogin(w, Seen(row, cut), cut.inp, user)
  {
    if user.enabled {
      if cut.inp.signingFails {
        return Failure(ServiceError);
      }
      return PreAuth(IssuePreAuthToken(cut.wall));
    }
    answer := SignTokens(w, row, cut);
  }

  method ClearThenFinish(w: World, db: UserStore, ghost start: Thread, ghost row0: Row,
                         pending: Row, taken: nat, cuts: seq<Cut>)
    returns (answer: Answer, used: nat)
    requires db.Valid() && Schedule(cuts, 4) && WellFormed(start) && 1 <= taken <= 2
    requires At(w, start, row0, cuts, taken, LoginClear(pending), db.View())
    modifies db
    ensures db.Valid() && At(w, start, row0, cuts, used, Answered(answer), db.View())
  {
    hide At, RunThread, StepCut, VerifyPassword, NeedsRehash, HashPassword, VerifyTOTP, FirstMatch, ExecAll, Unmarshal,
         IssueTokens;
    var user := pending;
    AtLoginClear(w, start, row0, cuts, taken, db.View(), user);
    used := taken + 1;
    db.Others(cuts[taken].others);
    ghost var now := db.View();
    var cleared := db.ClearPendingTOTP(user.secret, cuts[taken].inp.fault);
    if !cleared {
      AtLoginReread(w, start, row0, cuts, taken + 1, db.View());
      used := taken + 2;
      db.Others(cuts[taken + 1].others);
      now := db.View();
      var again := GetUserAllInfo(db, cuts[taken + 1].inp.fault);
      if again.None? {
        return Failure(PasswordInvalid), used;
      }
      user := again.value;
    }
    answer := FinishWith(w, now, user, cuts[used - 1]);
  }

  method PutUserPassword(w: World, db: UserStore, oldPassword: string, newPassword: string, cuts: seq<Cut>)
    returns (answer: Answer, used: nat)
    requires db.Valid() && Schedule(cuts, 2)
    modifies db
    ensures db.Valid()
    ensures At(w, Start(PasswordRequest(oldPassword, newPassword)), old(db.View()), cuts, used,
               Answered(answer), db.View())
  {
    hide At, RunThread, StepCut, VerifyPassword, NeedsRehash, HashPassword, VerifyTOTP, FirstMatch, ExecAll, Unmarshal;
    ghost var start, row0 := Start(PasswordRequest(oldPassword, newPassword)), db.View();
    AtBegin(w, start.request, row0, cuts);
    used := 1;
    db.Others(cuts[0].others);
    if oldPassword == "" || newPassword == "" {
      return Failure(InvalidParams), used;
    }
    var found := GetUserAllInfo(db, cuts[0].inp.fault);
    if found.None? {
      return Failure(UserNotExist), used;
    }
    if !VerifyPassword(w.pw, found.value.password, oldPassword) {
      return Failure(PasswordInvalid), used;
    }
    var hash := HashPassword(w.pw, newPassword, cuts[0].inp.passwordSalt);
    AtPasswordWrite(w, start, row0, cuts, 1, db.View(), hash, newPassword);
    used := 2;
    db.Others(cuts[1].others);
    var err := db.UpdateUserPassword(hash, cuts[1].inp.fault);
    answer := if err then Failure(ServiceError) else Success;
  }
}
