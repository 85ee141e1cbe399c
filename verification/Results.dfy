/** The guarantees of the protocol, over every run of any number of handlers under any schedule. */
module Results {
  import opened Prelude
  import opened World
  import opened Password
  import opened Rows
  import opened Totp
  import opened Recovery
  import opened Limiter
  import opened History
  import opened TwoFactor
  import opened Handlers
  import opened Sequential
  import opened Server
  import opened Invariants
  import opened Stories
  import opened Refusals
  import opened Circulation
  import opened Budget
  import opened Clock

  /** Where a run starts: any well-formed row, so also one an earlier process left behind. */
  datatype Setting = Setting(w: World, row0: Row, wall: int, mono: real)

  ghost predicate Runs(g: Setting, run: seq<Action>) {
    LawfulWorld(g.w) && RowOk(g.row0) && ValidRun(g.w, Initial(g.row0, g.wall, g.mono), run)
  }

  ghost function End(g: Setting, run: seq<Action>): State
    requires Runs(g, run)
  {
    After(g.w, Initial(g.row0, g.wall, g.mono), run)
  }

  lemma EndInv(g: Setting, run: seq<Action>)
    requires Runs(g, run)
    ensures Inv(g.w, g.row0, End(g, run))
  {
    Reachable(g.w, g.row0, g.wall, g.mono, run);
  }

  lemma EndRow(g: Setting, run: seq<Action>)
    requires Runs(g, run)
    ensures End(g, run).row == Replay(g.row0, End(g, run).log)
  {
    EndInv(g, run);
  }

  // ---- the row and the atomic machine ----

  /** Every reachable row: enabled means a secret, a recorded step and at most eight codes; not enabled
      means no codes. */
  lemma RowInvariant(g: Setting, run: seq<Action>)
    requires Runs(g, run)
    ensures var row := End(g, run).row;
            && (row.enabled ==> row.secret != "" && row.lastStep >= 1 && |row.List()| <= 8)
            && (!row.enabled ==> row.List() == [])
            && Distinct(row.List()) && row.lastStep >= 0
  {
    EndInv(g, run);
    RowAlwaysOk(g.w, g.row0, End(g, run).log);
  }

  /** Every run simulates a run of the atomic machine, one move for each write that landed. */
  lemma RunSimulates(g: Setting, run: seq<Action>)
    requires Runs(g, run)
    ensures var s := End(g, run);
            && |Events(g.row0, s.log)| == |s.log|
            && Moves(Meaning(g.row0), Events(g.row0, s.log)) == Some(Meaning(s.row))
  {
    EndInv(g, run);
    HistorySimulates(g.w, g.row0, End(g, run).log);
  }

  /** A step leaves the row alone, or records one write and takes the one move it means. */
  lemma OneStepOneMove(g: Setting, run: seq<Action>, a: Action)
    requires Runs(g, run) && Enabled(g.w, End(g, run), a)
    ensures var s, t := End(g, run), Next(g.w, End(g, run), a);
            || (t.row == s.row && t.log == s.log)
            || (|t.log| == |s.log| + 1 && t.log[..|s.log|] == s.log
                && Move(Meaning(s.row), EventOf(s.row, t.log[|s.log|])) == Some(Meaning(t.row)))
  {
    hide AdmissibleOn, FlightOk, Draws, VerifyPassword;
    var s, t := End(g, run), Next(g.w, End(g, run), a);
    EndInv(g, run);
    NextKeepsInv(g.w, g.row0, s, a);
    if t.log != s.log {
      var e := t.log[|s.log|];
      assert t.log == s.log + [e];
      assert Front(t.log) == s.log;
      RowAlwaysOk(g.w, g.row0, s.log);
      OneWriteOneMove(g.w, s.row, Placed(g.row0, s.log), Issued(g.row0, s.log), e);
    }
  }

  /** What a handler answered says what it wrote: success exactly its one write, failure none. */
  lemma AnswersMeanWrites(g: Setting, run: seq<Action>, id: nat)
    requires Runs(g, run)
    requires id < |End(g, run).flights| && End(g, run).flights[id].thread.Answered?
    ensures var s := End(g, run); var f := s.flights[id];
            f.first <= |s.log| && Explains(g.w, f, f.thread.answer, RowAt(g.row0, s.log, f.first), WritesBy(s.log, id))
  {
    hide Explains, Replay;
    StoriesHold(g.w, g.row0, g.wall, g.mono, run);
    var s := End(g, run);
    assert StoryAt(g.w, g.row0, s.log, s.flights[id], id);
  }

  /** A refusal says what is so: of the row read or of the row at the instant of the answer. */
  lemma RefusalsAreTrue(g: Setting, run: seq<Action>, id: nat)
    requires Runs(g, run) && id < |End(g, run).flights|
    requires var f := End(g, run).flights[id]; f.thread.Answered? && f.thread.answer.Failure?
    ensures var s := End(g, run); var f := s.flights[id];
            && f.first <= |s.log| && f.last <= |s.log| && f.end <= |s.log|
            && RefusalTrue(g.w, f, f.thread.answer.reason,
                           RowAt(g.row0, s.log, f.first), RowAt(g.row0, s.log, f.last), RowAt(g.row0, s.log, f.end))
            && LostToAnother(g.row0, s.log, f)
  {
    hide RefusalTrue, Replay, TouchedWithin;
    TruthHolds(g.w, g.row0, g.wall, g.mono, run);
    assert TruthfulAt(g.w, g.row0, End(g, run).log, End(g, run).flights[id]);
  }

  /** A request that lacks a field, or has both of two that exclude each other, is refused, and so is one
      that could not read the row. */
  lemma MalformedIsRefused(g: Setting, run: seq<Action>, id: nat)
    requires Runs(g, run) && id < |End(g, run).flights| && End(g, run).flights[id].thread.Answered?
    requires Malformed(End(g, run).flights[id].request) || End(g, run).flights[id].unread
    ensures End(g, run).flights[id].thread.answer.Failure?
  {
    hide RefusalTrue, Replay, LostToAnother;
    TruthHolds(g.w, g.row0, g.wall, g.mono, run);
    assert TruthfulAt(g.w, g.row0, End(g, run).log, End(g, run).flights[id]);
  }

  // ---- keys: a conditional write lands exactly on what its handler read ----

  lemma FlightKnows(g: Setting, run: seq<Action>, id: nat)
    requires Runs(g, run) && id < |End(g, run).flights|
    ensures var s := End(g, run); var f := s.flights[id];
            && FlightOk(g.w, g.row0, s.log, f)
            && ThreadFacts(g.w, f, RowAt(g.row0, s.log, f.first), RowAt(g.row0, s.log, f.last))
  {
    EndInv(g, run);
    assert FlightOk(g.w, g.row0, End(g, run).log, End(g, run).flights[id]);
  }

  /** An enable, a clear on login and a disable land exactly when nothing set the secret or the switch
      since their handler read the row: no stale one alters a later enrolment. */
  lemma KeyedWriteLandsIff(g: Setting, run: seq<Action>, id: nat, inp: Input)
    requires Runs(g, run) && id < |End(g, run).flights|
    requires var t := End(g, run).flights[id].thread; t.EnableWrite? || t.LoginClear? || t.DisableWrite?
    ensures var s := End(g, run); var f := s.flights[id];
            Landed(g.w, f.thread, s.row, inp) <==> !inp.fault && Untouched(s.log, f.first)
  {
    hide AdmissibleOn, Draws, VerifyPassword, NeedsRehash, FromOneDraw;
    var s := End(g, run);
    var f := s.flights[id];
    EndInv(g, run);
    FlightKnows(g, run, id);
    SameEnrolmentIffUntouched(g.w, g.row0, s.log, f.first);
  }

  /** A setup's secret lands exactly when no enrolment made since its handler read the row stands: a stale
      one may replace a secret that is still pending, never one that was enabled. */
  lemma SetupLandsIff(g: Setting, run: seq<Action>, id: nat, inp: Input)
    requires Runs(g, run) && id < |End(g, run).flights| && End(g, run).flights[id].thread.SetupWrite?
    ensures var s := End(g, run); var f := s.flights[id];
            Landed(g.w, f.thread, s.row, inp) <==> !inp.fault && !EnrolmentStands(s.log, f.first)
  {
    hide AdmissibleOn, Draws, VerifyPassword, NeedsRehash, EnrolmentStands;
    var s := End(g, run);
    EndInv(g, run);
    FlightKnows(g, run, id);
    EnabledIffStands(g.w, g.row0, s.log, s.flights[id].first);
  }

  /** A recovery write lands exactly when nothing wrote the list since it was read; so it loses only to
      a failing statement or to another write of the list. */
  lemma RecoveryLandsIff(g: Setting, run: seq<Action>, id: nat, inp: Input)
    requires Runs(g, run) && id < |End(g, run).flights| && End(g, run).flights[id].thread.VerifySwap?
    ensures var s := End(g, run); var f := s.flights[id];
            WellFormed(f.thread) && (Landed(g.w, f.thread, s.row, inp) <==> !inp.fault && CodesUntouched(s.log, f.last))
  {
    hide AdmissibleOn, Draws, VerifyPassword, NeedsRehash, FirstMatch;
    var s := End(g, run);
    var f := s.flights[id];
    EndInv(g, run);
    FlightKnows(g, run, id);
    SameCodesIffUntouched(g.w, g.row0, s.log, f.last);
  }

  /** The step write of a verify is keyed on the step alone. At the instant it is issued, the row shows
      the enrolment the code was checked against exactly when nothing touched that enrolment since. */
  lemma StepOnItsEnrolmentIff(g: Setting, run: seq<Action>, id: nat)
    requires Runs(g, run) && id < |End(g, run).flights| && End(g, run).flights[id].thread.VerifyConsume?
    ensures var s := End(g, run); var f := s.flights[id];
            (s.row.enabled && s.row.secret == f.thread.user.secret) <==> Untouched(s.log, f.first)
  {
    hide AdmissibleOn, Draws, VerifyPassword, NeedsRehash;
    var s := End(g, run);
    EndInv(g, run);
    FlightKnows(g, run, id);
    SameEnrolmentIffUntouched(g.w, g.row0, s.log, s.flights[id].first);
  }

  /** A verify can answer with a session although the row it writes is not enabled: it checked a
      code, a disable landed, and its step write found a last step of zero. */
  lemma LateGrantExample(w: World, row: Row, token: Token)
    requires row.enabled && row.secret != "" && 1 <= row.lastStep < 10
    requires ParsePreAuthToken(token, 300)
    requires w.hotp(row.secret, "123456", Counter(10)) && !w.hotp(row.secret, "123456", Counter(9))
    ensures var quiet, disabled := Quiet(300, []), Quiet(300, [Disable(row.secret)]);
            var end := RunThread(w, Start(VerifyRequest(token, "123456", "")), row, [quiet, quiet, quiet, disabled]);
            end.0.Answered? && end.0.answer.Session? && !end.1.enabled && end.1.lastStep == 10
  {
    hide VerifyPassword, NeedsRehash, HashPassword, FirstMatch, RunThread;
    var quiet, disabled := Quiet(300, []), Quiet(300, [Disable(row.secret)]);
    var start := Start(VerifyRequest(token, "123456", ""));
    RunFour(w, start, row, quiet, quiet, quiet, disabled);
    assert CurrentStep(300) == 10;
    assert VerifyTOTP(w, row.secret, "123456", row.lastStep, 300) == Some(10);
    assert [Disable(row.secret)][1..] == [];
    assert ExecAll(row, []) == row;
    assert ExecAll(row, [Disable(row.secret)]) == Row(row.password, "", false, 0, None);
    assert StepCut(w, start, row, quiet) == (VerifyLimit(row, "123456", ""), row);
    assert StepCut(w, VerifyLimit(row, "123456", ""), row, quiet) == (VerifyCheck(row, "123456"), row);
    assert StepCut(w, VerifyCheck(row, "123456"), row, quiet) == (VerifyConsume(row, 10), row);
  }

  // ---- recovery codes ----

  lemma {:induction false} WriterFound(log: seq<Entry>, id: nat) returns (k: nat)
    requires |WritesBy(log, id)| == 1
    ensures k < |log| && log[k].writer == Some(id) && log[k].stmt == WritesBy(log, id)[0]
  {
    if Last(log).writer == Some(id) {
      k := |log| - 1;
    } else {
      k := WriterFound(Front(log), id);
    }
  }

  predicate GrantedOnRecovery(f: Flight) {
    f.request.VerifyRequest? && f.request.code == "" && f.thread.Answered? && f.thread.answer.Session?
  }

  predicate GrantedOnCode(f: Flight) {
    f.request.VerifyRequest? && f.request.code != "" && f.thread.Answered? && f.thread.answer.Session?
  }

  /** A session granted on a recovery code: one write took the hash it matches out of the list of an
      enabled row, at the instant of that write. */
  lemma RecoveryGrant(g: Setting, run: seq<Action>, id: nat) returns (k: nat)
    requires Runs(g, run) && id < |End(g, run).flights| && GrantedOnRecovery(End(g, run).flights[id])
    ensures var s := End(g, run);
            && k < |s.log| && s.log[k].writer == Some(id) && s.log[k].stmt.ReplaceCodes? && s.log[k].note.Spent?
            && g.w.bcryptMatches(s.log[k].note.hash, Normalise(s.flights[id].request.recovery))
            && RowAt(g.row0, s.log, k).enabled
            && s.log[k].note.hash in RowAt(g.row0, s.log, k).List()
            && s.log[k].note.hash !in RowAt(g.row0, s.log, k + 1).List()
  {
    hide VerifyPassword, Replay, AdmissibleOn, Acceptable, FlightOk, Draws, Normalise;
    var s := End(g, run);
    EndInv(g, run);
    AnswersMeanWrites(g, run, id);
    k := WriterFound(s.log, id);
    var i :| CodeTaken(g.w, s.flights[id].request.recovery, s.log[k].stmt.prev, s.log[k].stmt.remaining, i);
    SpentIsTaken(g.w, g.row0, s.log, k, i);
    RecoveryLandsEnabled(g.w, g.row0, s.log, k);
  }

  /** From an enable until the next disable or reset, over any schedule: the row lists a subsequence of
      the eight hashes that enable stored, and the rest are exactly those spent. */
  lemma EnrolmentConservesCodes(g: Setting, run: seq<Action>, k: nat)
    requires Runs(g, run)
    requires k < |End(g, run).log| && End(g, run).log[k].stmt.Enable? && SameEpoch(End(g, run).log, k + 1)
    ensures var s := End(g, run); var issued := s.log[k].stmt.hashes; var list := s.row.List();
            && |issued| == 8 && Subsequence(list, issued)
            && |list| == 8 - |Uses(s.log)|
            && multiset(list) + multiset(Uses(s.log)) == multiset(issued)
  {
    hide AdmissibleOn, FlightOk, Draws;
    var s := End(g, run);
    EndInv(g, run);
    CodesConserved(g.w, g.row0, s.log);
    EpochBeginsAt(g.row0, s.log, k);
    EnableHasEight(g.w, g.row0, s.log, k);
  }

  lemma EnableHasEight(w: World, row0: Row, log: seq<Entry>, k: nat)
    requires Legal(w, row0, log) && k < |log| && log[k].stmt.Enable?
    ensures var e := log[k];
            && |e.stmt.hashes| == 8 && Distinct(e.stmt.hashes)
            && e.note.CheckedAt? && CurrentStep(e.note.now) - 1 <= e.stmt.step <= CurrentStep(e.note.now) + 1
  {
    LegalPrefix(w, row0, log, k);
  }

  lemma {:induction false} WroteIt(log: seq<Entry>, k: nat, id: nat)
    requires k < |log| && log[k].writer == Some(id)
    ensures log[k].stmt in WritesBy(log, id)
  {
    if k < |log| - 1 {
      WroteIt(Front(log), k, id);
    }
  }

  lemma {:induction false} ShellWritesReset(g: Setting, run: seq<Action>, k: nat)
    requires Runs(g, run) && k < |End(g, run).log| && End(g, run).log[k].writer.None?
    ensures End(g, run).log[k].stmt.Reset?
  {
    hide AdmissibleOn, FlightOk, Draws, VerifyPassword, HashPassword, Resume;
    if run != [] {
      var front := run[..|run| - 1];
      var s := End(g, front);
      if k < |s.log| {
        ShellWritesReset(g, front, k);
      }
    }
  }

  lemma EnableIsAnswered(w: World, f: Flight, was: Row, ws: seq<Statement>, stmt: Statement)
    requires Story(w, f, was, ws) && stmt in ws && stmt.Enable?
    ensures f.thread.Answered? && f.thread.answer.RecoveryCodes? && FromOneDraw(w, f.thread.answer.plain, stmt.hashes)
  {
    hide FromOneDraw, Acceptable, VerifyPassword, FactorGiven;
  }

  /** The hashes an enrolment began with are those whose codes the winning enable handed out in plain. */
  lemma EnableHandedOut(g: Setting, run: seq<Action>, k: nat) returns (id: nat)
    requires Runs(g, run) && k < |End(g, run).log| && End(g, run).log[k].stmt.Enable?
    ensures var s := End(g, run);
            && id < |s.flights| && s.log[k].writer == Some(id)
            && s.flights[id].thread.Answered? && s.flights[id].thread.answer.RecoveryCodes?
            && FromOneDraw(g.w, s.flights[id].thread.answer.plain, s.log[k].stmt.hashes)
  {
    hide FromOneDraw, Story, AdmissibleOn, Replay, RowOk, LawfulWorld;
    var s := End(g, run);
    if s.log[k].writer.None? {
      ShellWritesReset(g, run, k);
    }
    id := s.log[k].writer.value;
    StoriesHold(g.w, g.row0, g.wall, g.mono, run);
    WroteIt(s.log, k, id);
    var f := s.flights[id];
    assert StoryAt(g.w, g.row0, s.log, f, id);
    EnableIsAnswered(g.w, f, RowAt(g.row0, s.log, f.first), WritesBy(s.log, id), s.log[k].stmt);
  }

  /** No recovery hash is spent twice in a run, whatever enrolments come and go. */
  lemma RecoveryCodesOnce(g: Setting, run: seq<Action>, i: nat, j: nat)
    requires Runs(g, run) && i < j < |End(g, run).log|
    requires End(g, run).log[i].stmt.ReplaceCodes? && End(g, run).log[j].stmt.ReplaceCodes?
    ensures End(g, run).log[i].note.Spent? && End(g, run).log[j].note.Spent?
    ensures End(g, run).log[i].note.hash != End(g, run).log[j].note.hash
  {
    EndInv(g, run);
    CodesUsedOnce(g.w, g.row0, End(g, run).log, i, j);
  }

  /** Any two sessions granted on recovery codes took two different hashes out of the row, in one
      enrolment or across any number of them. */
  lemma OneGrantPerCode(g: Setting, run: seq<Action>, a: nat, b: nat) returns (i: nat, j: nat)
    requires Runs(g, run) && a < |End(g, run).flights| && b < |End(g, run).flights| && a != b
    requires GrantedOnRecovery(End(g, run).flights[a]) && GrantedOnRecovery(End(g, run).flights[b])
    ensures var s := End(g, run);
            && i < |s.log| && j < |s.log| && s.log[i].note.Spent? && s.log[j].note.Spent?
            && g.w.bcryptMatches(s.log[i].note.hash, Normalise(s.flights[a].request.recovery))
            && g.w.bcryptMatches(s.log[j].note.hash, Normalise(s.flights[b].request.recovery))
            && s.log[i].note.hash != s.log[j].note.hash
  {
    hide Runs, End, Normalise, RowAt;
    i := RecoveryGrant(g, run, a);
    j := RecoveryGrant(g, run, b);
    RecoveryCodesOnce(g, run, if i < j then i else j, if i < j then j else i);
  }

  /** A recovery write that lost to a different code, in an enrolment that still stands: its code is
      still good, and the same request made again is granted a session when it is let alone. */
  lemma LosingCodeStillWorks(g: Setting, run: seq<Action>, id: nat, token: Token, c: Cut)
    requires Runs(g, run) && id < |End(g, run).flights| && End(g, run).flights[id].thread.VerifySwap?
    requires var s := End(g, run); var f := s.flights[id];
             && WellFormed(f.thread) && SameEpoch(s.log, f.last)
             && forall i :: f.last <= i < |s.log| && s.log[i].stmt.ReplaceCodes?
                  ==> s.log[i].note != Note.Spent(f.thread.prev[f.thread.index])
    requires Friendly(c) && LivePreAuth(token, c.wall)
    ensures var s := End(g, run); var f := s.flights[id];
            && f.request.VerifyRequest?
            && var end := Alone(g.w, VerifyRequest(token, "", f.request.recovery), s.row, c);
               end.0.Answered? && end.0.answer.Session?
  {
    hide AdmissibleOn, Draws, VerifyPassword, NeedsRehash, Alone;
    var s := End(g, run);
    var f := s.flights[id];
    var hash := f.thread.prev[f.thread.index];
    EndInv(g, run);
    FlightKnows(g, run, id);
    UnspentStaysListed(g.w, g.row0, s.log, f.last, hash);
    StillMatches(g.w, s.row.List(), hash, f.request.recovery);
    RowAlwaysOk(g.w, g.row0, s.log);
    VerifyAlone(g.w, token, "", f.request.recovery, s.row, c);
  }

  lemma StillMatches(w: World, list: seq<string>, hash: string, recovery: string)
    requires hash in list && w.bcryptMatches(hash, Normalise(recovery))
    ensures FirstMatch(w, list, recovery).Some?
  {
    var k :| 0 <= k < |list| && list[k] == hash;
    assert w.bcryptMatches(list[k], Normalise(recovery));
  }

  /** text spells a code that was handed out in plain. */
  ghost predicate SpellsPlain(text: string, plain: string) {
    |plain| == 11 && IsSpelling(text, plain[..5] + plain[6..])
  }

  lemma DrawnCodeMatches(w: World, plain: seq<string>, hashes: seq<string>, i: nat, text: string)
    requires LawfulWorld(w) && FromOneDraw(w, plain, hashes) && i < 8
    ensures |plain| == |hashes| == 8 && SpellsPlain(plain[i], plain[i])
    ensures SpellsPlain(text, plain[i]) ==> w.bcryptMatches(hashes[i], Normalise(text)) && text != ""
  {
    hide VerifyPassword, Lawful, ReadsBack, Normalise, IsSpelling;
    var raws, salts :| IsDraw(w, raws, salts, plain, hashes);
    var code := Code(raws[i]);
    assert plain[i][..5] + plain[i][6..] == code;
    PlainIsSpelling(code);
    SpellingIff(text, code);
    NothingSpells(code);
  }

  lemma NothingSpells(code: string)
    requires code != ""
    ensures !IsSpelling("", code)
  {
  }

  /** Any code handed out by the enrolment in force and not spent since is granted a session, however it
      is spelled, when its request is let alone; and as it was handed out is one way to spell it. */
  lemma HandedOutCodeStillWorks(g: Setting, run: seq<Action>, k: nat, i: nat, token: Token, text: string, c: Cut)
    returns (id: nat)
    requires Runs(g, run)
    requires k < |End(g, run).log| && End(g, run).log[k].stmt.Enable? && SameEpoch(End(g, run).log, k + 1)
    requires i < 8 && i < |End(g, run).log[k].stmt.hashes|
    requires End(g, run).log[k].stmt.hashes[i] !in Uses(End(g, run).log)
    requires Friendly(c) && LivePreAuth(token, c.wall)
    ensures var s := End(g, run);
            && id < |s.flights| && s.log[k].writer == Some(id)
            && s.flights[id].thread.Answered? && s.flights[id].thread.answer.RecoveryCodes?
            && var plain := s.flights[id].thread.answer.plain;
               && i < |plain| && SpellsPlain(plain[i], plain[i])
               && (SpellsPlain(text, plain[i]) ==>
                     var end := Alone(g.w, VerifyRequest(token, "", text), s.row, c);
                     end.0.Answered? && end.0.answer.Session?)
  {
    hide Alone, AdmissibleOn, FlightOk, Draws, FromOneDraw, Normalise, SpellsPlain, Distinct;
    var s := End(g, run);
    var hash := s.log[k].stmt.hashes[i];
    id := EnableHandedOut(g, run, k);
    var plain := s.flights[id].thread.answer.plain;
    EnrolmentConservesCodes(g, run, k);
    DrawnCodeMatches(g.w, plain, s.log[k].stmt.hashes, i, text);
    assert hash in multiset(s.log[k].stmt.hashes);
    assert hash in multiset(s.row.List());
    if SpellsPlain(text, plain[i]) {
      StillMatches(g.w, s.row.List(), hash, text);
      EndInv(g, run);
      RowAlwaysOk(g.w, g.row0, s.log);
      VerifyAlone(g.w, token, "", text, s.row, c);
    }
  }

  // ---- steps ----

  /** Between two writes that set the last step outright, the accepted steps increase strictly and lie
      beyond the one the epoch began with: no step is accepted twice. */
  lemma StepsIncreaseInEpoch(g: Setting, run: seq<Action>)
    requires Runs(g, run)
    ensures var s := End(g, run); Ascends(Base(g.row0, s.log), Steps(s.log), s.row.lastStep)
  {
    EndInv(g, run);
    StepsIncrease(g.w, g.row0, End(g, run).log);
  }

  /** The write of flight id at k, of a step that its code matches on the secret it read. */
  ghost predicate StepTaken(g: Setting, run: seq<Action>, id: nat, k: nat)
    requires Runs(g, run)
  {
    var s := End(g, run);
    && id < |s.flights| && k < |s.log| && s.log[k].writer == Some(id) && s.log[k].stmt.ConsumeStep?
    && s.flights[id].request.VerifyRequest? && s.flights[id].first <= |s.log|
    && var was := RowAt(g.row0, s.log, s.flights[id].first);
       g.w.hotp(was.secret, s.flights[id].request.code, Counter(s.log[k].stmt.step))
  }

  lemma StepFound(g: Setting, run: seq<Action>, id: nat) returns (k: nat)
    requires Runs(g, run) && id < |End(g, run).flights| && GrantedOnCode(End(g, run).flights[id])
    ensures StepTaken(g, run, id, k)
  {
    hide VerifyPassword, Replay, AdmissibleOn, FlightOk, Draws, Counter;
    AnswersMeanWrites(g, run, id);
    k := WriterFound(End(g, run).log, id);
  }

  /** Any two sessions granted on codes each recorded a step its code matches; with no enable, disable or
      reset between the two writes the steps differ: within an epoch a step grants one session. */
  lemma OneGrantPerStep(g: Setting, run: seq<Action>, a: nat, b: nat) returns (i: nat, j: nat)
    requires Runs(g, run) && a < |End(g, run).flights| && b < |End(g, run).flights| && a != b
    requires GrantedOnCode(End(g, run).flights[a]) && GrantedOnCode(End(g, run).flights[b])
    ensures StepTaken(g, run, a, i) && StepTaken(g, run, b, j)
    ensures var log := End(g, run).log;
            SameEpoch(log[..j], i + 1) && SameEpoch(log[..i], j + 1) ==> log[i].stmt.step != log[j].stmt.step
  {
    hide SameEpoch, End;
    i := StepFound(g, run, a);
    j := StepFound(g, run, b);
    var log := End(g, run).log;
    EndInv(g, run);
    if i < j && SameEpoch(log[..j], i + 1) {
      LaterStepIsGreater(g.w, g.row0, log, i, j);
    }
    if j < i && SameEpoch(log[..i], j + 1) {
      LaterStepIsGreater(g.w, g.row0, log, j, i);
    }
  }

  /** A verify that checked its code records the step exactly when the statement does not fail, the epoch in
      force began below that step, and no step as great was accepted in it. */
  lemma StepAcceptedIff(g: Setting, run: seq<Action>, id: nat, inp: Input)
    requires Runs(g, run) && id < |End(g, run).flights| && End(g, run).flights[id].thread.VerifyConsume?
    ensures var s := End(g, run); var f := s.flights[id];
            Landed(g.w, f.thread, s.row, inp) <==> !inp.fault && NotReached(g.row0, s.log, f.thread.step)
  {
    hide AdmissibleOn, Draws, FlightOk, NotReached;
    EndInv(g, run);
    StepAcceptableIff(g.w, g.row0, End(g, run).log, End(g, run).flights[id].thread.step);
  }

  /** Once a step is recorded, no check made on a row read later in the epoch accepts it, in a verify or in
      a disable. */
  lemma RecordedStepIsRefused(g: Setting, run: seq<Action>, i: nat, k: nat, code: string, now: int)
    requires Runs(g, run) && i < k <= |End(g, run).log| && SameEpoch(End(g, run).log[..k], i + 1)
    requires var stmt := End(g, run).log[i].stmt; stmt.ConsumeStep? || stmt.Enable?
    ensures var s := End(g, run); var was := RowAt(g.row0, s.log, k);
            VerifyTOTP(g.w, was.secret, code, was.lastStep, now) != Some(s.log[i].stmt.step)
  {
    hide AdmissibleOn, Draws, FlightOk, SameEpoch, Replay;
    EndInv(g, run);
    LogIsLegal(g, run);
    StepStaysRecorded(g.w, g.row0, End(g, run).log, i, k);
  }

  lemma LogIsLegal(g: Setting, run: seq<Action>)
    requires Runs(g, run)
    ensures Legal(g.w, g.row0, End(g, run).log)
  {
    EndInv(g, run);
  }

  /** A disable records no step, so it may pass on a code whose step a verify has recorded: exactly when the
      statement does not fail and nothing touched the enrolment since its read. But then it read the row
      before that step was recorded, or in an earlier epoch. */
  lemma DisableOnRecordedStepIff(g: Setting, run: seq<Action>, id: nat, inp: Input, i: nat, step: int)
    requires Runs(g, run) && id < |End(g, run).flights| && End(g, run).flights[id].thread.DisableWrite?
    requires DisablesOn(g, run, id, step)
    requires i < |End(g, run).log| && End(g, run).log[i].stmt == ConsumeStep(step)
    ensures var s := End(g, run); var f := s.flights[id];
            && (Landed(g.w, f.thread, s.row, inp) <==> !inp.fault && Untouched(s.log, f.first))
            && f.first <= |s.log|
            && (f.first <= i || !SameEpoch(s.log[..f.first], i + 1))
  {
    hide VerifyTOTP, SameEpoch, Untouched, Landed, Replay;
    var s := End(g, run);
    var f := s.flights[id];
    KeyedWriteLandsIff(g, run, id, inp);
    if i < f.first && SameEpoch(s.log[..f.first], i + 1) {
      RecordedStepIsRefused(g, run, i, f.first, f.request.code, f.checkedAt);
    }
  }

  /** Flight id is a disable whose code the window accepted at step, on the row it read. */
  ghost predicate DisablesOn(g: Setting, run: seq<Action>, id: nat, step: int)
    requires Runs(g, run) && id < |End(g, run).flights|
  {
    var s := End(g, run);
    var f := s.flights[id];
    && f.request.DisableRequest? && f.request.code != "" && f.first <= |s.log|
    && var was := RowAt(g.row0, s.log, f.first);
       VerifyTOTP(g.w, was.secret, f.request.code, was.lastStep, f.checkedAt) == Some(step)
  }

  /** A step some request already recorded is accepted again exactly when the statement does not fail, an
      enable, disable or reset landed since, and the epoch in force has not reached that step. */
  lemma AcceptedAgainIff(g: Setting, run: seq<Action>, id: nat, inp: Input, i: nat)
    requires Runs(g, run) && id < |End(g, run).flights| && End(g, run).flights[id].thread.VerifyConsume?
    requires i < |End(g, run).log| && End(g, run).log[i].stmt == ConsumeStep(End(g, run).flights[id].thread.step)
    ensures var s := End(g, run); var f := s.flights[id];
            var again := !SameEpoch(s.log, i + 1) && NotReached(g.row0, s.log, f.thread.step);
            Landed(g.w, f.thread, s.row, inp) <==> !inp.fault && again
  {
    hide AdmissibleOn, Draws, FlightOk, SameEpoch, NotReached;
    EndInv(g, run);
    StepAgainIff(g.w, g.row0, End(g, run).log, i);
  }

  /** On a clock that never moves back, the codes accepted since an enable number at most the periods
      since its code was checked, and two; whatever the row held before. */
  lemma GrantsBound(g: Setting, run: seq<Action>, k: nat)
    requires Runs(g, run) && ClockForward(g.w, Initial(g.row0, g.wall, g.mono), run)
    requires k < |End(g, run).log| && End(g, run).log[k].stmt.Enable? && SameEpoch(End(g, run).log, k + 1)
    ensures var s := End(g, run);
            s.log[k].note.CheckedAt? && |Steps(s.log)| <= CurrentStep(s.wall) - CurrentStep(s.log[k].note.now) + 2
  {
    hide AdmissibleOn, FlightOk, Draws, ForwardAt, CurrentStep, StepsAtMost;
    var s := End(g, run);
    EndInv(g, run);
    StepsIncrease(g.w, g.row0, s.log);
    EpochBeginsAt(g.row0, s.log, k);
    EnableHasEight(g.w, g.row0, s.log, k);
    NeverAhead(g.w, g.row0, g.wall, g.mono, run);
    RecordedSinceEnable(g.row0, s.log, k, CurrentStep(s.wall) + 1);
  }

  /** On such a clock, past the year 1970, a user is never shut out for longer than one period: a verify let
      alone then, with the code of the newest step of the window, is granted a session. The one exception
      is a row that the run found ahead of the clock and that nothing recorded a step on since. */
  lemma CodeAcceptableWithinOnePeriod(g: Setting, run: seq<Action>, token: Token, code: string, c: Cut)
    requires Runs(g, run) && ClockForward(g.w, Initial(g.row0, g.wall, g.mono), run) && g.wall >= 0
    requires var s := End(g, run);
             && Friendly(c) && c.wall == s.wall + 30
             && s.row.enabled && LivePreAuth(token, c.wall) && code != ""
             && g.w.hotp(s.row.secret, code, Counter(c.wall / 30 + 1))
    ensures var s := End(g, run);
            var end := Alone(g.w, VerifyRequest(token, code, ""), s.row, c);
            || (end.0.Answered? && end.0.answer.Session? && end.1.lastStep > s.row.lastStep)
            || s.row.lastStep == g.row0.lastStep > s.wall / 30 + 1
  {
    hide ForwardAt, VerifyTOTP, Inv, StepsAtMost, Counter, LawfulWorld, RowOk, Enabled, Next, Replay,
         StepNotAhead, Alone;
    NeverAhead(g.w, g.row0, g.wall, g.mono, run);
    var s := End(g, run);
    EndRow(g, run);
    CurrentStepMonotone(0, g.wall);
    CurrentStepMonotone(g.wall, s.wall);
    RecordedAtMost(g.row0, s.log, CurrentStep(s.wall) + 1);
    if s.row.lastStep <= CurrentStep(s.wall) + 1 {
      AcceptedAfterOnePeriod(g.w, s.row.secret, code, s.row.lastStep, s.wall);
      LaterStep(g.w, s.row.secret, code, s.row.lastStep, c.wall);
      VerifyAlone(g.w, token, code, "", s.row, c);
    }
  }

  // ---- sign-in ----

  ghost predicate PendingAt(row0: Row, log: seq<Entry>, k: nat)
    requires k <= |log|
  {
    RowAt(row0, log, k).secret != "" && !RowAt(row0, log, k).enabled
  }

  /** A session from /login has an instant, between its first read and its answer, at which the row was
      not enabled; a login that stops at the factor has one at which it was. Either way the password
      matched the row first read. Where that row held a pending secret, the instant is not before the
      attempt to clear it: an enable that landed by then and stands sends the login to the factor. */
  lemma LoginLinearises(g: Setting, run: seq<Action>, id: nat)
    requires Runs(g, run) && id < |End(g, run).flights|
    requires var f := End(g, run).flights[id];
             f.request.LoginRequest? && f.thread.Answered? && !f.thread.answer.Failure?
    ensures var s := End(g, run); var f := s.flights[id];
            && f.first <= f.last <= f.end <= |s.log|
            && VerifyPassword(g.w.pw, RowAt(g.row0, s.log, f.first).password, f.request.password)
            && (f.thread.answer.Session? || f.thread.answer.PreAuth?)
            && (f.thread.answer.Session? <==> !RowAt(g.row0, s.log, f.last).enabled)
            && (f.thread.answer.Session? && PendingAt(g.row0, s.log, f.first) ==> f.first <= f.tried <= f.last)
  {
    hide VerifyPassword;
    FlightKnows(g, run, id);
  }

  /** A session from /2fa/verify was preceded by a login of the same account whose password matched and
      which saw the row enabled: that login had handed out the very token before the verify arrived, had
      answered when the verify first read the row, and did so less than five minutes of wall clock before
      the verify began. */
  lemma SecondFactorFollowsFirst(g: Setting, run: seq<Action>, id: nat) returns (login: nat, k: nat)
    requires Runs(g, run) && id < |End(g, run).flights|
    requires var f := End(g, run).flights[id];
             f.request.VerifyRequest? && f.thread.Answered? && f.thread.answer.Session?
    ensures var s := End(g, run);
            && login < id
            && var l := s.flights[login]; var f := s.flights[id];
               && k < f.known <= |s.tokens| && s.tokens[k] == Minted(f.request.token, login)
               && l.request.LoginRequest? && l.thread == Answered(PreAuth(f.request.token))
               && l.first <= l.last <= l.end <= f.first <= |s.log|
               && VerifyPassword(g.w.pw, RowAt(g.row0, s.log, l.first).password, l.request.password)
               && RowAt(g.row0, s.log, l.last).enabled
               && f.startedAt < l.endedAt + 300
  {
    hide VerifyPassword, Replay, Traced;
    var s := End(g, run);
    FlightKnows(g, run, id);
    TracedHolds(g.w, g.row0, g.wall, g.mono, run);
    k := ShownWasMinted(g.w, s, id, s.flights[id].request.token);
    login := s.tokens[k].origin;
    FlightKnows(g, run, login);
  }

  /** Every session token in circulation was handed out by a login or verify that was granted a session,
      or descends from such a token through refreshes, each shown the token before it. */
  lemma {:induction false} SessionRoot(g: Setting, run: seq<Action>, k: nat) returns (root: nat)
    requires Runs(g, run) && k < |End(g, run).tokens| && End(g, run).tokens[k].token.key == SessionKey
    ensures var s := End(g, run);
            && Descends(s, k, root)
            && root < |s.flights| && (s.flights[root].request.LoginRequest? || s.flights[root].request.VerifyRequest?)
            && s.flights[root].thread.Answered? && s.flights[root].thread.answer.Session?
    decreases k
  {
    hide VerifyPassword, Replay, Traced;
    var s := End(g, run);
    TracedHolds(g.w, g.row0, g.wall, g.mono, run);
    TracedAt(g.w, s, k);
    root := s.tokens[k].origin;
    FlightKnows(g, run, root);
    if s.flights[root].request.RefreshRequest? {
      var j := ShownWasMinted(g.w, s, root, s.flights[root].request.token);
      assert RefreshedFrom(s, k, j);
      root := SessionRoot(g, run, j);
    }
  }

  /** A refresh is turned away for its token exactly when that is not the refresh token, as opposed to the
      access token, of a session handed out before it arrived, or is shown too late. Otherwise it is
      answered with a session, unless that could not be signed. */
  lemma RefreshAnswersIff(g: Setting, run: seq<Action>, id: nat)
    requires Runs(g, run) && id < |End(g, run).flights|
    requires End(g, run).flights[id].request.RefreshRequest? && End(g, run).flights[id].thread.Answered?
    ensures var s := End(g, run); var f := s.flights[id];
            && f.known <= |s.tokens|
            && (f.thread.answer != Failure(TokenRejected) <==>
                  ShowsRefresh(s, f) && f.startedAt < f.request.token.expires)
            && (f.thread.answer.Session? || f.thread.answer == Failure(TokenRejected)
                || (f.thread.answer == Failure(ServiceError) && f.broken))
  {
    hide VerifyPassword, Replay, Traced, ShowsRefresh;
    FlightKnows(g, run, id);
    TracedHolds(g.w, g.row0, g.wall, g.mono, run);
    LiveRefreshIff(g.w, End(g, run), id);
    if End(g, run).flights[id].thread.answer.Failure? {
      RefusalsAreTrue(g, run, id);
    }
  }

  /** A verify is turned away for its token exactly when that was not handed out, before it arrived, by a
      login that stopped at the factor less than five minutes earlier. */
  lemma VerifyTokenIff(g: Setting, run: seq<Action>, id: nat)
    requires Runs(g, run) && id < |End(g, run).flights|
    requires End(g, run).flights[id].request.VerifyRequest? && End(g, run).flights[id].thread.Answered?
    ensures var s := End(g, run); var f := s.flights[id];
            && f.known <= |s.tokens|
            && (f.thread.answer != Failure(TokenRejected) <==> ShowsPreAuth(s, f))
  {
    hide VerifyPassword, Replay, Traced, ShowsPreAuth;
    FlightKnows(g, run, id);
    TracedHolds(g.w, g.row0, g.wall, g.mono, run);
    LivePreAuthIff(g.w, End(g, run), id);
    if End(g, run).flights[id].thread.answer.Failure? {
      RefusalsAreTrue(g, run, id);
    }
  }

  // ---- secrets ----

  /** Each secret is placed, enabled and disabled at most once in a run. */
  lemma SecretsOnce(g: Setting, run: seq<Action>, i: nat, j: nat)
    requires Runs(g, run) && i < j < |End(g, run).log|
    ensures var log := End(g, run).log;
            && (log[i].stmt.SetPending? && log[j].stmt.SetPending? ==> log[i].stmt.secret != log[j].stmt.secret)
            && (log[i].stmt.Enable? && log[j].stmt.Enable? ==> log[i].stmt.secret != log[j].stmt.secret)
            && (log[i].stmt.Disable? && log[j].stmt.Disable? ==> log[i].stmt.secret != log[j].stmt.secret)
  {
    EndInv(g, run);
    SecretsUsedOnce(g.w, g.row0, End(g, run).log, i, j);
  }

  /** Once a secret has left the row it is not there at any later instant. */
  lemma SecretNeverReturns(g: Setting, run: seq<Action>, k: nat, m: nat, n: nat)
    requires Runs(g, run) && k <= m <= n <= |End(g, run).log|
    requires var log := End(g, run).log;
             && RowAt(g.row0, log, k).secret != ""
             && RowAt(g.row0, log, m).secret != RowAt(g.row0, log, k).secret
    ensures RowAt(g.row0, End(g, run).log, n).secret != RowAt(g.row0, End(g, run).log, k).secret
  {
    EndInv(g, run);
    var log := End(g, run).log;
    LegalPrefix(g.w, g.row0, log, n);
    assert log[..n][..m] == log[..m] && log[..m][..k] == log[..k];
    RowSecretPlaced(g.row0, log[..k]);
    PlacedGrows(g.row0, log[..m], k);
    NeverReturns(g.w, g.row0, log[..n], m, RowAt(g.row0, log, k).secret);
  }

  // ---- the password ----

  /** Of the passwords in play, the stored hash verifies the one of the latest register, change or reset
      and no other, over any interleaving of sign-ins and changes. */
  lemma StoredHashIsLatest(g: Setting, run: seq<Action>, first: string, candidate: string)
    requires Runs(g, run)
    requires first in g.w.passwords && VerifyPassword(g.w.pw, g.row0.password, first)
    requires candidate in g.w.passwords
    ensures VerifyPassword(g.w.pw, End(g, run).row.password, candidate)
       <==> candidate == LatestPassword(first, End(g, run).log)
  {
    hide VerifyPassword, FlightOk, Draws;
    EndInv(g, run);
    StoredVerifiesLatest(g.w, g.row0, first, End(g, run).log, candidate);
  }

  /** After any password write the stored hash needs no rehash, so a run swaps a hash at most once. */
  lemma HashSwappedOnce(g: Setting, run: seq<Action>, i: nat)
    requires Runs(g, run) && i < |End(g, run).log| && WritesPassword(End(g, run).log[i].stmt)
    ensures !NeedsRehash(g.w.pw, End(g, run).row.password)
    ensures forall j :: i < j < |End(g, run).log| ==> !End(g, run).log[j].stmt.ReplacePassword?
  {
    hide NeedsRehash, FlightOk, Draws;
    EndInv(g, run);
    var log := End(g, run).log;
    NoRehashAfterWrite(g.w, g.row0, log, i);
    forall j | i < j < |log|
      ensures !log[j].stmt.ReplacePassword?
    {
      SwapAtMostOnce(g.w, g.row0, log, i, j);
    }
  }

  /** A sign-in with the right password, let alone: it leaves a hash that verifies the password and needs no
      rehash, swapped only if it had to be, and no pending secret; and the next one changes nothing. */
  lemma SignInsConverge(w: World, password: string, row: Row, c: Cut)
    requires LawfulWorld(w) && Friendly(c) && c.inp.loginAllowed
    requires password != "" && VerifyPassword(w.pw, row.password, password)
    ensures var end := Alone(w, LoginRequest(password), row, c); var once := end.1;
            && end.0.Answered? && (if row.enabled then end.0.answer.PreAuth? else end.0.answer.Session?)
            && once == row.(password := once.password, secret := if row.enabled then row.secret else "")
            && VerifyPassword(w.pw, once.password, password) && !NeedsRehash(w.pw, once.password)
            && (!NeedsRehash(w.pw, row.password) ==> once.password == row.password)
            && Alone(w, LoginRequest(password), once, c) == (end.0, once)
  {
    hide VerifyPassword, NeedsRehash, LawfulWorld, Alone;
    LoginAlone(w, password, row, c);
    LoginAlone(w, password, Alone(w, LoginRequest(password), row, c).1, c);
  }

  // ---- the budget ----

  /** The limiter is exact: in every reachable state a request gets past it just if that keeps the user, in
      every window, within five requests and one for every twelve seconds. */
  lemma LimiterIff(g: Setting, run: seq<Action>)
    requires Runs(g, run)
    ensures var s := End(g, run);
            Allowed(s.bucket, s.mono) <==> forall i :: 0 <= i < |s.admitted| ==> FitsSince(s.admitted, i, s.mono)
  {
    hide Accounts, AdmittedOnce;
    BudgetHolds(g.w, g.row0, g.wall, g.mono, run);
    AllowedIff(End(g, run).bucket, End(g, run).admitted, End(g, run).mono);
  }

  /** In any window of w seconds at most 5 + floor(w / 12) requests of the user get past the limiter, all
      four routes together; and nothing is checked or granted without having got past it, once. */
  lemma BudgetPerWindow(g: Setting, run: seq<Action>, start: real, width: real)
    requires Runs(g, run) && width >= 0.0
    ensures var s := End(g, run);
            && |Limiter.InWindow(s.admitted, start, width)| <= 5 + (width / 12.0).Floor
            && |s.admittedFor| == |s.admitted| && Distinct(s.admittedFor)
            && forall i :: 0 <= i < |s.flights| && (Checking(s.flights[i].thread) || Granted(s.flights[i]))
                 ==> i in s.admittedFor
  {
    hide Accounts;
    BudgetHolds(g.w, g.row0, g.wall, g.mono, run);
    var s := End(g, run);
    WindowBudget(s.bucket, s.admitted, start, width);
  }
}
