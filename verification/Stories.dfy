/** What a handler answered against what it wrote: an answer of success stands for exactly one write,
    an answer of failure for none. */
module Stories {
  import opened Prelude
  import opened World
  import opened Password
  import opened Rows
  import opened Totp
  import opened Recovery
  import opened History
  import opened Handlers
  import opened Server
  import opened Invariants

  /** The writes a handler landed, in order. */
  function WritesBy(log: seq<Entry>, id: nat): seq<Statement> {
    if log == [] then []
    else WritesBy(Front(log), id) + (if Last(log).writer == Some(id) then [Last(log).stmt] else [])
  }

  /** A sign-in may swap the hash it verified for a fresh one of the same password. */
  ghost predicate SwapOnly(w: World, password: string, was: Row, ws: seq<Statement>) {
    ws == [] || (|ws| == 1 && Swaps(w, password, was, ws[0]))
  }

  ghost predicate Swaps(w: World, password: string, was: Row, stmt: Statement) {
    && stmt.ReplacePassword? && stmt.current == was.password && VerifyPassword(w.pw, stmt.replacement, password)
    && NeedsRehash(w.pw, was.password) && !NeedsRehash(w.pw, stmt.replacement)
  }

  /** A sign-in with a wrong password writes nothing. One with the right password may swap the hash, and
      may clear the secret it found pending unless it stops at the factor; then it fails only for want of a
      signature. */
  ghost predicate LoginExplains(w: World, password: string, answer: Answer, was: Row, ws: seq<Statement>) {
    && LoginWrites(w, password, was, ws)
    && (!VerifyPassword(w.pw, was.password, password) ==> ws == [])
    && (was.enabled || was.secret == "" ==> SwapOnly(w, password, was, ws))
    && (answer.PreAuth? || (answer.Failure? && answer.reason != ServiceError) ==> SwapOnly(w, password, was, ws))
  }

  ghost predicate LoginWrites(w: World, password: string, was: Row, ws: seq<Statement>) {
    || SwapOnly(w, password, was, ws)
    || ws == [ClearPending(was.secret)]
    || (|ws| == 2 && Swaps(w, password, was, ws[0]) && ws[1] == ClearPending(was.secret))
  }

  /** The list without its i-th hash, which the code presented matches. */
  ghost predicate CodeTaken(w: World, recovery: string, prev: seq<string>, remaining: seq<string>, i: nat) {
    i < |prev| && w.bcryptMatches(prev[i], Normalise(recovery)) && remaining == RemoveAt(prev, i)
  }

  /** The write of a verify, and that the factor presented was right. */
  ghost predicate FactorSpent(w: World, request: Request, was: Row, ws: seq<Statement>)
    requires request.VerifyRequest?
  {
    && |ws| == 1
    && if request.code != "" then
         ws[0].ConsumeStep? && Acceptable(w, was.secret, request.code, was.lastStep, ws[0].step)
       else
         ws[0].ReplaceCodes? && exists i :: CodeTaken(w, request.recovery, ws[0].prev, ws[0].remaining, i)
  }

  /** What an answer to a request stands for; was is the row as its handler first read it. Success means
      that the check passed on that row and that exactly one write landed, keyed on that row; failure
      that none did. A verify whose token could not be signed has spent its factor all the same, and a
      login whose token could not be signed may have cleared the pending secret. */
  ghost predicate Explains(w: World, f: Flight, answer: Answer, was: Row, ws: seq<Statement>) {
    match f.request
    case LoginRequest(password) =>
      LoginExplains(w, password, answer, was, ws)
    case VerifyRequest(_, _, _) =>
      if answer.Session? || answer == Failure(ServiceError) then FactorSpent(w, f.request, was, ws) else ws == []
    case SetupRequest(password) =>
      if answer.PendingSecret?
      then ws == [SetPending(answer.secret)] && VerifyPassword(w.pw, was.password, password)
      else ws == []
    case EnableRequest(code) =>
      if answer.RecoveryCodes?
      then |ws| == 1 && ws[0].Enable? && ws[0].secret == was.secret && Acceptable(w, was.secret, code, 0, ws[0].step)
           && FromOneDraw(w, answer.plain, ws[0].hashes)
      else ws == []
    case DisableRequest(_, _) =>
      if answer.Success? then ws == [Disable(was.secret)] && FactorGiven(w, f, was) else ws == []
    case PasswordRequest(oldPassword, newPassword) =>
      if answer.Success?
      then |ws| == 1 && ws[0].UpdatePassword? && VerifyPassword(w.pw, was.password, oldPassword)
           && VerifyPassword(w.pw, ws[0].password, newPassword)
      else ws == []
    case RefreshRequest(_) => ws == []
  }

  ghost predicate Story(w: World, f: Flight, was: Row, ws: seq<Statement>) {
    match f.thread
    case Answered(answer) => Explains(w, f, answer, was, ws)
    case LoginClear(_) => f.request.LoginRequest? && SwapOnly(w, f.request.password, was, ws)
    case LoginReread => f.request.LoginRequest? && SwapOnly(w, f.request.password, was, ws)
    case _ => ws == []
  }

  ghost predicate WritersKnown(log: seq<Entry>, n: nat) {
    forall k :: 0 <= k < |log| && log[k].writer.Some? ==> log[k].writer.value < n
  }

  ghost predicate StoryAt(w: World, row0: Row, log: seq<Entry>, f: Flight, id: nat) {
    f.first <= |log| && Story(w, f, RowAt(row0, log, f.first), WritesBy(log, id))
  }

  ghost predicate StoriesOk(w: World, row0: Row, s: State) {
    && WritersKnown(s.log, |s.flights|)
    && forall i :: 0 <= i < |s.flights| ==> StoryAt(w, row0, s.log, s.flights[i], i)
  }

  lemma {:induction false} StrangerWroteNothing(log: seq<Entry>, n: nat, id: nat)
    requires WritersKnown(log, n) && id >= n
    ensures WritesBy(log, id) == []
  {
    if log != [] {
      assert Last(log) == log[|log| - 1];
      StrangerWroteNothing(Front(log), n, id);
    }
  }

  lemma WritesByAppend(log: seq<Entry>, e: Entry, id: nat)
    ensures WritesBy(log + [e], id) == WritesBy(log, id) + (if e.writer == Some(id) then [e.stmt] else [])
  {
    assert Front(log + [e]) == log;
  }

  lemma AppendKeepsStory(w: World, row0: Row, log: seq<Entry>, e: Entry, f: Flight, id: nat)
    requires StoryAt(w, row0, log, f, id) && e.writer != Some(id)
    ensures StoryAt(w, row0, log + [e], f, id)
  {
    hide Story;
    WritesByAppend(log, e, id);
    assert (log + [e])[..f.first] == log[..f.first];
    assert RowAt(row0, log + [e], f.first) == RowAt(row0, log, f.first);
    assert WritesBy(log + [e], id) == WritesBy(log, id);
  }

  /** The step of one thread, with what it wrote before. */
  ghost predicate StoryStep(w: World, s: State, f: Flight, inp: Input, was: Row, ws: seq<Statement>)
    requires WellFormed(f.thread) && GoodInput(inp)
  {
    Story(w, Flew(w, s, f, inp), WasAfter(s, f, was),
          ws + (if Landed(w, f.thread, s.row, inp) then [StatementOf(w, f.thread, inp).value] else []))
  }

  lemma BeginStory(w: World, s: State, f: Flight, inp: Input, was: Row, ws: seq<Statement>)
    requires GoodInput(inp) && f.thread == Start(f.request) && ws == []
    ensures StoryStep(w, s, f, inp, was, ws)
  {
    hide VerifyPassword, NeedsRehash, HashPassword, VerifyTOTP, FirstMatch;
  }

  lemma VerifyStory(w: World, s: State, f: Flight, inp: Input, was: Row, seen: Row, ws: seq<Statement>)
    requires WellFormed(f.thread) && GoodInput(inp) && ThreadFacts(w, f, was, seen) && ws == []
    requires InVerify(f.thread) || f.thread.VerifyList?
    ensures StoryStep(w, s, f, inp, was, ws)
  {
    hide VerifyPassword, NeedsRehash, HashPassword, VerifyTOTP, FirstMatch, Normalise;
    if f.thread.VerifySwap? {
      assert CodeTaken(w, f.request.recovery, f.thread.prev, RemoveAt(f.thread.prev, f.thread.index), f.thread.index);
    }
  }

  lemma EnrolmentStory(w: World, s: State, f: Flight, inp: Input, was: Row, seen: Row, ws: seq<Statement>)
    requires GoodInput(inp) && ThreadFacts(w, f, was, seen) && ws == []
    requires InEnrolment(f.thread)
    ensures StoryStep(w, s, f, inp, was, ws)
  {
    hide VerifyPassword, NeedsRehash, HashPassword, VerifyTOTP, FromOneDraw, PlainCodes, HashesOf, Distinct;
  }

  lemma LoginStory(w: World, s: State, f: Flight, inp: Input, was: Row, seen: Row, ws: seq<Statement>)
    requires LawfulWorld(w) && GoodInput(inp) && ThreadFacts(w, f, was, seen) && Story(w, f, was, ws)
    requires f.thread.LoginSwap? || f.thread.LoginClear? || f.thread.LoginReread?
    ensures StoryStep(w, s, f, inp, was, ws)
  {
    hide VerifyPassword, NeedsRehash, HashPassword;
    if f.thread.LoginSwap? {
      HashVerifies(w.pw, f.thread.password, inp.passwordSalt);
    }
  }

  lemma DisableStory(w: World, s: State, f: Flight, inp: Input, was: Row, seen: Row, ws: seq<Statement>)
    requires GoodInput(inp) && ThreadFacts(w, f, was, seen) && ws == []
    requires f.thread.DisableLimit? || f.thread.DisableCheck? || f.thread.DisableWrite? || f.thread.PasswordWrite?
    ensures StoryStep(w, s, f, inp, was, ws)
  {
    hide VerifyPassword, NeedsRehash, HashPassword, VerifyTOTP;
  }

  lemma StepStory(w: World, s: State, f: Flight, inp: Input, was: Row, seen: Row, ws: seq<Statement>)
    requires LawfulWorld(w) && WellFormed(f.thread) && !f.thread.Answered? && GoodInput(inp)
    requires ThreadFacts(w, f, was, seen) && Story(w, f, was, ws)
    ensures StoryStep(w, s, f, inp, was, ws)
  {
    hide VerifyPassword, NeedsRehash, StoryStep, VerifyTOTP, FromOneDraw;
    if f.thread.Start? {
      BeginStory(w, s, f, inp, was, ws);
    } else if InVerify(f.thread) || f.thread.VerifyList? {
      VerifyStory(w, s, f, inp, was, seen, ws);
    } else if InEnrolment(f.thread) {
      EnrolmentStory(w, s, f, inp, was, seen, ws);
    } else if InLogin(f.thread) {
      LoginStory(w, s, f, inp, was, seen, ws);
    } else {
      DisableStory(w, s, f, inp, was, seen, ws);
    }
  }

  lemma MoverKeepsStory(w: World, row0: Row, s: State, id: nat, inp: Input)
    requires LawfulWorld(w) && Inv(w, row0, s) && StoriesOk(w, row0, s) && Enabled(w, s, Proceed(id, inp))
    ensures StoryAt(w, row0, ProceedWith(w, s, id, inp).log, Flew(w, s, s.flights[id], inp), id)
  {
    hide ThreadFacts, Story, AdmissibleOn, Draws, Resume, VerifyPassword;
    var f, log := s.flights[id], ProceedWith(w, s, id, inp).log;
    assert FlightOk(w, row0, s.log, f);
    assert StoryAt(w, row0, s.log, f, id);
    StepStory(w, s, f, inp, RowAt(row0, s.log, f.first), RowAt(row0, s.log, f.last), WritesBy(s.log, id));
    MarksAfter(w, row0, s, f, inp, log);
    if Landed(w, f.thread, s.row, inp) {
      WritesByAppend(s.log, EntryOf(w, s, id, inp), id);
    } else {
      assert WritesBy(s.log, id) + [] == WritesBy(s.log, id);
    }
  }

  lemma ProceedKeepsStories(w: World, row0: Row, s: State, id: nat, inp: Input)
    requires LawfulWorld(w) && Inv(w, row0, s) && StoriesOk(w, row0, s) && Enabled(w, s, Proceed(id, inp))
    ensures StoriesOk(w, row0, ProceedWith(w, s, id, inp))
  {
    hide Story, Inv, Resume, VerifyPassword, FreshDraw;
    var f, t := s.flights[id], ProceedWith(w, s, id, inp);
    MoverKeepsStory(w, row0, s, id, inp);
    assert t.flights[id] == Flew(w, s, f, inp) && |t.flights| == |s.flights|;
    assert WritersKnown(t.log, |t.flights|);
    forall i | 0 <= i < |t.flights|
      ensures StoryAt(w, row0, t.log, t.flights[i], i)
    {
      if i != id {
        assert StoryAt(w, row0, s.log, s.flights[i], i);
        if Landed(w, f.thread, s.row, inp) {
          AppendKeepsStory(w, row0, s.log, EntryOf(w, s, id, inp), s.flights[i], i);
        }
      }
    }
  }

  lemma ShellKeepsStories(w: World, row0: Row, s: State, e: Entry)
    requires StoriesOk(w, row0, s) && e.writer == None
    ensures StoriesOk(w, row0, s.(row := Write(s.row, e.stmt), log := s.log + [e]))
  {
    hide Story;
    forall i | 0 <= i < |s.flights|
      ensures StoryAt(w, row0, s.log + [e], s.flights[i], i)
    {
      AppendKeepsStory(w, row0, s.log, e, s.flights[i], i);
    }
  }

  lemma NextKeepsStories(w: World, row0: Row, s: State, a: Action)
    requires LawfulWorld(w) && Inv(w, row0, s) && StoriesOk(w, row0, s) && Enabled(w, s, a)
    ensures StoriesOk(w, row0, Next(w, s, a))
  {
    hide Inv, HashPassword, ProceedWith;
    match a {
      case Arrive(request) =>
        StrangerWroteNothing(s.log, |s.flights|, |s.flights|);
        var t := Next(w, s, a);
        assert forall i :: 0 <= i < |s.flights| ==> t.flights[i] == s.flights[i];
        assert StoryAt(w, row0, t.log, t.flights[|s.flights|], |s.flights|);
      case Proceed(id, inp) => ProceedKeepsStories(w, row0, s, id, inp);
      case Tick(_, _) =>
        assert forall i :: 0 <= i < |s.flights| ==> StoryAt(w, row0, s.log, s.flights[i], i);
      case ResetByShell(password, salt) =>
        ShellKeepsStories(w, row0, s, Entry(None, Reset(HashPassword(w.pw, password, salt)), Typed(password)));
    }
  }

  lemma {:induction false} StoriesHold(w: World, row0: Row, wall: int, mono: real, run: seq<Action>)
    requires LawfulWorld(w) && RowOk(row0) && ValidRun(w, Initial(row0, wall, mono), run)
    ensures StoriesOk(w, row0, After(w, Initial(row0, wall, mono), run))
  {
    if run != [] {
      var front := run[..|run| - 1];
      Reachable(w, row0, wall, mono, front);
      StoriesHold(w, row0, wall, mono, front);
      NextKeepsStories(w, row0, After(w, Initial(row0, wall, mono), front), run[|run| - 1]);
    }
  }
}
