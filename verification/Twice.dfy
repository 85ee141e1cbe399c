/** Two runs in which one captured code passes twice: two verifies check it, and a disable lands between
    their writes; and a verify and a disable check it, and both writes land. */
module Twice {
  import opened Prelude
  import opened World
  import opened Password
  import opened Rows
  import opened Totp
  import opened Recovery
  import opened Limiter
  import opened History
  import opened Handlers
  import opened Server
  import opened Results

  const CALM := Quiet(0, []).inp

  lemma Extend(g: Setting, run: seq<Action>, a: Action)
    requires Runs(g, run) && Enabled(g.w, End(g, run), a)
    ensures Runs(g, run + [a]) && End(g, run + [a]) == Next(g.w, End(g, run), a)
  {
    hide LawfulWorld, RowOk, Enabled, Next;
    assert (run + [a])[..|run|] == run;
  }

  /** t is s after some steps of handler id that wrote nothing. */
  ghost predicate OnlyMoved(s: State, t: State, id: nat) {
    && t.row == s.row && t.log == s.log && t.wall == s.wall && t.mono == s.mono
    && id < |t.flights| && |s.flights| <= |t.flights|
    && forall i :: 0 <= i < |s.flights| && i != id ==> t.flights[i] == s.flights[i]
  }

  /** One more request comes in. */
  lemma ComesIn(g: Setting, run: seq<Action>, request: Request) returns (next: seq<Action>)
    requires Runs(g, run) && RequestOk(g.w, request) && TokenOk(End(g, run).tokens, request)
    ensures Runs(g, next)
    ensures var s, t := End(g, run), End(g, next); var id := |s.flights|;
            && |t.flights| == id + 1 && OnlyMoved(s, t, id)
            && t.flights[id].thread == Start(request) && t.flights[id].request == request
            && t.bucket == s.bucket && t.tokens == s.tokens
  {
    next := run + [Arrive(request)];
    Extend(g, run, Arrive(request));
  }

  /** A step that draws nothing and writes nothing. */
  lemma Reads(g: Setting, run: seq<Action>, id: nat) returns (next: seq<Action>)
    requires Runs(g, run) && id < |End(g, run).flights|
    requires var t := End(g, run).flights[id].thread;
             !t.Answered? && WellFormed(t) && StatementOf(g.w, t, CALM).None? && !t.SetupCheck? && !t.EnableCheck?
    ensures Runs(g, next)
    ensures var s, t := End(g, run), End(g, next); var f := s.flights[id];
            && |t.flights| == |s.flights| && OnlyMoved(s, t, id)
            && t.flights[id].thread == Resume(g.w, f.thread, ViewOf(s), CALM, false)
            && t.flights[id].request == f.request
            && t.bucket == (if AtLimiter(f.thread) then Taken(s.bucket, s.mono) else s.bucket)
            && t.tokens == s.tokens + MintedIn(t.flights[id].thread, id)
  {
    hide Resume, VerifyPassword, NeedsRehash, HashPassword, LawfulWorld, RowOk, Runs, End;
    next := run + [Proceed(id, CALM)];
    Extend(g, run, Proceed(id, CALM));
  }

  /** A step that writes, on a row its key matches. */
  lemma Writes(g: Setting, run: seq<Action>, id: nat) returns (next: seq<Action>)
    requires Runs(g, run) && id < |End(g, run).flights|
    requires var t := End(g, run).flights[id].thread;
             WellFormed(t) && StatementOf(g.w, t, CALM).Some?
             && Matches(End(g, run).row, StatementOf(g.w, t, CALM).value)
    ensures Runs(g, next)
    ensures var s, t := End(g, run), End(g, next); var f := s.flights[id];
            var stmt := StatementOf(g.w, f.thread, CALM).value;
            && |t.flights| == |s.flights|
            && (forall i :: 0 <= i < |s.flights| && i != id ==> t.flights[i] == s.flights[i])
            && t.row == Write(s.row, stmt) && t.wall == s.wall
            && t.log == s.log + [Entry(Some(id), stmt, NoteOf(f))]
            && t.flights[id].thread == Resume(g.w, f.thread, ViewOf(s), CALM, true)
            && t.flights[id].request == f.request
  {
    hide Resume, VerifyPassword, NeedsRehash, HashPassword, LawfulWorld, RowOk, Runs, End;
    next := run + [Proceed(id, CALM)];
    Extend(g, run, Proceed(id, CALM));
  }

  /** A login with the right password, of a row that is enabled, hands out a token for the factor. */
  lemma SignsIn(g: Setting, password: string) returns (next: seq<Action>)
    requires LawfulWorld(g.w) && RowOk(g.row0) && g.row0.enabled && password in g.w.passwords && password != ""
    requires VerifyPassword(g.w.pw, g.row0.password, password) && !NeedsRehash(g.w.pw, g.row0.password)
    ensures Runs(g, next)
    ensures var s := End(g, next);
            && s.row == g.row0 && s.log == [] && s.wall == g.wall && s.mono == g.mono && s.bucket == Full(g.mono)
            && |s.flights| == 1 && Presentable(s.tokens, IssuePreAuthToken(g.wall))
  {
    hide VerifyPassword, NeedsRehash, HashPassword, LawfulWorld, RowOk, Runs, End, VerifyTOTP, FirstMatch;
    NothingYet(g);
    var in1 := ComesIn(g, [], LoginRequest(password));
    next := Reads(g, in1, 0);
    assert End(g, next).tokens[0].token == IssuePreAuthToken(g.wall);
  }

  /** A verify up to its write. */
  lemma VerifyWaits(g: Setting, run: seq<Action>, token: Token, code: string, step: int) returns (next: seq<Action>)
    requires Runs(g, run)
    requires var s := End(g, run);
             && Presentable(s.tokens, token) && ParsePreAuthToken(token, s.wall) && Allowed(s.bucket, s.mono)
             && s.row.enabled && code != "" && VerifyTOTP(g.w, s.row.secret, code, s.row.lastStep, s.wall) == Some(step)
    ensures Runs(g, next)
    ensures var s, t := End(g, run), End(g, next); var id := |s.flights|;
            && |t.flights| == id + 1 && OnlyMoved(s, t, id)
            && t.flights[id].thread == VerifyConsume(s.row, step)
            && t.flights[id].request == VerifyRequest(token, code, "")
            && t.bucket == Taken(s.bucket, s.mono) && t.tokens == s.tokens
  {
    hide VerifyPassword, NeedsRehash, HashPassword, VerifyTOTP, FirstMatch, Runs, End, Presentable, Allowed, Taken;
    ghost var id := |End(g, run).flights|;
    var in1 := ComesIn(g, run, VerifyRequest(token, code, ""));
    var in2 := Reads(g, in1, id);
    var in3 := Reads(g, in2, id);
    next := Reads(g, in3, id);
  }

  /** A disable up to its write, by code or by password. */
  lemma DisableWaits(g: Setting, run: seq<Action>, code: string, password: string) returns (next: seq<Action>)
    requires Runs(g, run) && Typable(g.w, password) && (code == "") != (password == "")
    requires var s := End(g, run);
             && Allowed(s.bucket, s.mono) && s.row.enabled
             && if code != "" then VerifyTOTP(g.w, s.row.secret, code, s.row.lastStep, s.wall).Some?
                else VerifyPassword(g.w.pw, s.row.password, password)
    ensures Runs(g, next)
    ensures var s, t := End(g, run), End(g, next); var id := |s.flights|;
            && |t.flights| == id + 1 && OnlyMoved(s, t, id)
            && t.flights[id].thread == DisableWrite(s.row) && t.flights[id].request == DisableRequest(code, password)
  {
    hide VerifyPassword, NeedsRehash, HashPassword, VerifyTOTP, FirstMatch, Runs, End, Presentable, Allowed, Taken;
    ghost var id := |End(g, run).flights|;
    var in1 := ComesIn(g, run, DisableRequest(code, password));
    var in2 := Reads(g, in1, id);
    var in3 := Reads(g, in2, id);
    next := Reads(g, in3, id);
  }

  /** A login, two verifies with its token and one code, and a disable: all four checked before any wrote. */
  lemma AllWait(g: Setting, password: string, code: string, step: int) returns (next: seq<Action>)
    requires LawfulWorld(g.w) && RowOk(g.row0) && g.row0.enabled
    requires password in g.w.passwords && password != "" && code != ""
    requires VerifyPassword(g.w.pw, g.row0.password, password) && !NeedsRehash(g.w.pw, g.row0.password)
    requires VerifyTOTP(g.w, g.row0.secret, code, g.row0.lastStep, g.wall) == Some(step)
    ensures Runs(g, next)
    ensures var s := End(g, next); var request := VerifyRequest(IssuePreAuthToken(g.wall), code, "");
            && s.row == g.row0 && s.log == [] && |s.flights| == 4
            && s.flights[1].thread == s.flights[2].thread == VerifyConsume(g.row0, step)
            && s.flights[1].request == s.flights[2].request == request
            && s.flights[3].thread == DisableWrite(g.row0)
  {
    hide VerifyPassword, NeedsRehash, VerifyTOTP, Runs, End, Presentable, Allowed, Taken;
    var token := IssuePreAuthToken(g.wall);
    var in1 := SignsIn(g, password);
    FiveTokens(g.mono);
    var in2 := VerifyWaits(g, in1, token, code, step);
    var in3 := VerifyWaits(g, in2, token, code, step);
    next := DisableWaits(g, in3, "", password);
  }

  lemma FiveTokens(mono: real)
    ensures Allowed(Full(mono), mono) && Allowed(Taken(Full(mono), mono), mono)
    ensures Allowed(Taken(Taken(Full(mono), mono), mono), mono)
  {
  }

  /** The two verifies are both granted a session on the one code, and the history records its step
      twice, once before the disable and once after. */
  lemma StepTwiceExample(g: Setting, password: string, code: string, step: int) returns (run: seq<Action>)
    requires LawfulWorld(g.w) && RowOk(g.row0) && g.row0.enabled
    requires password in g.w.passwords && password != "" && code != ""
    requires VerifyPassword(g.w.pw, g.row0.password, password) && !NeedsRehash(g.w.pw, g.row0.password)
    requires VerifyTOTP(g.w, g.row0.secret, code, g.row0.lastStep, g.wall) == Some(step)
    ensures Runs(g, run)
    ensures var s := End(g, run);
            && |s.flights| == 4 && GrantedOnCode(s.flights[1]) && GrantedOnCode(s.flights[2])
            && s.flights[1].request == s.flights[2].request && s.flights[1].request.code == code
            && |s.log| == 3 && s.log[0].writer == Some(1) && s.log[2].writer == Some(2)
            && s.log[0].stmt == s.log[2].stmt == ConsumeStep(step) && s.log[1].stmt == Disable(g.row0.secret)
  {
    hide VerifyPassword, NeedsRehash, VerifyTOTP, Runs, End, FirstMatch, HashPassword, NoteOf, LawfulWorld, RowOk;
    StepIsLater(g.w, g.row0, code, g.wall, step);
    var in1 := AllWait(g, password, code, step);
    var in2 := Writes(g, in1, 1);
    var in3 := Writes(g, in2, 3);
    run := Writes(g, in3, 2);
  }

  /** A verify and a disable that both read the row before either wrote pass on one code, with nothing
      between their writes. */
  lemma CodeTwiceExample(g: Setting, password: string, code: string, step: int) returns (run: seq<Action>)
    requires LawfulWorld(g.w) && RowOk(g.row0) && g.row0.enabled
    requires password in g.w.passwords && password != "" && code != ""
    requires VerifyPassword(g.w.pw, g.row0.password, password) && !NeedsRehash(g.w.pw, g.row0.password)
    requires VerifyTOTP(g.w, g.row0.secret, code, g.row0.lastStep, g.wall) == Some(step)
    ensures Runs(g, run)
    ensures var s := End(g, run);
            && |s.flights| == 3 && GrantedOnCode(s.flights[1]) && s.flights[1].request.code == code
            && s.flights[2].request == DisableRequest(code, "") && s.flights[2].thread == Answered(Success)
            && |s.log| == 2 && s.log[0].writer == Some(1) && s.log[1].writer == Some(2)
            && s.log[0].stmt == ConsumeStep(step) && s.log[1].stmt == Disable(g.row0.secret)
  {
    hide VerifyPassword, NeedsRehash, VerifyTOTP, Runs, End, FirstMatch, HashPassword, NoteOf, LawfulWorld,
         RowOk, Presentable, Allowed, Taken;
    StepIsLater(g.w, g.row0, code, g.wall, step);
    FiveTokens(g.mono);
    var in1 := SignsIn(g, password);
    var in2 := VerifyWaits(g, in1, IssuePreAuthToken(g.wall), code, step);
    var in3 := DisableWaits(g, in2, code, "");
    var in4 := Writes(g, in3, 1);
    run := Writes(g, in4, 2);
  }

  lemma NothingYet(g: Setting)
    requires LawfulWorld(g.w) && RowOk(g.row0)
    ensures Runs(g, []) && End(g, []) == Initial(g.row0, g.wall, g.mono)
  {
  }

  lemma StepIsLater(w: World, row: Row, code: string, now: int, step: int)
    requires RowOk(row) && row.enabled && VerifyTOTP(w, row.secret, code, row.lastStep, now) == Some(step)
    ensures step > row.lastStep >= 1
  {
  }
}
