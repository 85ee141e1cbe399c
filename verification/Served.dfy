/** The two views of a handler joined: every handler in flight in a run of Server is a run of its thread
    alone, among exactly the statements that landed meanwhile. So what is proved about runs holds of the
    imperative handlers. */
module Served {
  import opened Prelude
  import opened World
  import opened Password
  import opened Rows
  import opened Recovery
  import opened Json
  import opened UserStore
  import opened Limiter
  import opened History
  import opened Handlers
  import opened Server
  import opened Invariants
  import opened Stories
  import opened Sequential
  import opened Requests
  import opened Results

  function Statements(log: seq<Entry>): (stmts: seq<Statement>)
    ensures |stmts| == |log| && forall k :: 0 <= k < |log| ==> stmts[k] == log[k].stmt
  {
    seq(|log|, i requires 0 <= i < |log| => log[i].stmt)
  }

  /** The writes of a stretch of history, as handler id sees them. */
  function SeenBy(log: seq<Entry>, id: nat): (acts: seq<Act>)
    ensures |acts| == |log| && forall k :: 0 <= k < |log| ==> acts[k] == Act(log[k].writer == Some(id), log[k].stmt)
  {
    seq(|log|, i requires 0 <= i < |log| => Act(log[i].writer == Some(id), log[i].stmt))
  }

  /** Run alone with these cuts from the row at its arrival, the handler is where the flight is and leaves
      the row that the flight's latest step left; its own writes and those around them are the history of
      that time; and it had not answered before. */
  ghost predicate Follows(w: World, row0: Row, log: seq<Entry>, f: Flight, id: nat, cuts: seq<Cut>) {
    && f.arrived <= f.end <= |log| && GoodCuts(cuts)
    && var start, row := Start(f.request), RowAt(row0, log, f.arrived);
       && RunThread(w, start, row, cuts) == (f.thread, RowAt(row0, log, f.end))
       && Trace(w, start, row, cuts) == SeenBy(log[f.arrived..f.end], id)
       && Unanswered(w, start, row, cuts)
  }

  ghost predicate Unanswered(w: World, start: Thread, row: Row, cuts: seq<Cut>)
    requires GoodCuts(cuts) && WellFormed(start)
  {
    forall k :: 0 <= k < |cuts| ==> !RunThread(w, start, row, cuts[..k]).0.Answered?
  }

  ghost predicate Followed(w: World, row0: Row, log: seq<Entry>, f: Flight, id: nat) {
    && (forall k :: 0 <= k < |log| && log[k].writer == Some(id) ==> f.arrived <= k < f.end)
    && exists cuts :: Follows(w, row0, log, f, id, cuts)
  }

  ghost predicate AllFollowed(w: World, row0: Row, s: State) {
    && WritersKnown(s.log, |s.flights|)
    && forall i :: 0 <= i < |s.flights| ==> Followed(w, row0, s.log, s.flights[i], i)
  }

  // ---- every step keeps it ----

  lemma {:induction false} ExecOneMore(row: Row, stmts: seq<Statement>, stmt: Statement)
    ensures ExecAll(row, stmts + [stmt]) == Exec(ExecAll(row, stmts), stmt, false)
    decreases |stmts|
  {
    if stmts == [] {
      assert [stmt][1..] == [];
      assert stmts + [stmt] == [stmt];
    } else {
      assert (stmts + [stmt])[1..] == stmts[1..] + [stmt];
      ExecOneMore(Exec(row, stmts[0], false), stmts[1..], stmt);
    }
  }

  /** Executing the statements of a stretch of a legal history is replaying it: every one lands. */
  lemma {:induction false} ReplayIsExec(w: World, row0: Row, log: seq<Entry>, k: nat)
    requires Legal(w, row0, log) && k <= |log|
    ensures ExecAll(RowAt(row0, log, k), Statements(log[k..])) == Replay(row0, log)
  {
    if k == |log| {
      assert log[..k] == log;
    } else {
      var front := Front(log);
      ReplayIsExec(w, row0, front, k);
      assert front[..k] == log[..k];
      assert Statements(log[k..]) == Statements(front[k..]) + [Last(log).stmt];
      ExecOneMore(RowAt(row0, log, k), Statements(front[k..]), Last(log).stmt);
    }
  }

  function ActsOf(w: World, r: (Thread, Row), cut: Cut): seq<Act>
    requires WellFormed(r.0)
  {
    Foreign(cut.others) + Own(w, r.0, ExecAll(r.1, cut.others), cut.inp)
  }

  lemma TraceOne(w: World, t: Thread, row: Row, cuts: seq<Cut>, cut: Cut)
    requires GoodCuts(cuts) && GoodInput(cut.inp) && WellFormed(t)
    ensures GoodCuts(cuts + [cut])
    ensures Trace(w, t, row, cuts + [cut]) == Trace(w, t, row, cuts) + ActsOf(w, RunThread(w, t, row, cuts), cut)
  {
    hide RunThread, Foreign, Own;
    assert (cuts + [cut])[..|cuts|] == cuts;
  }

  lemma StaysUnanswered(w: World, t: Thread, row: Row, cuts: seq<Cut>, cut: Cut)
    requires GoodCuts(cuts) && GoodInput(cut.inp) && WellFormed(t)
    requires Unanswered(w, t, row, cuts) && !RunThread(w, t, row, cuts).0.Answered?
    ensures GoodCuts(cuts + [cut]) && Unanswered(w, t, row, cuts + [cut])
  {
    hide RunThread;
    var all := cuts + [cut];
    forall k | 0 <= k < |all|
      ensures !RunThread(w, t, row, all[..k]).0.Answered?
    {
      assert all[..k] == if k < |cuts| then cuts[..k] else cuts;
    }
  }

  lemma AppendKeepsFollowed(w: World, row0: Row, log: seq<Entry>, e: Entry, f: Flight, id: nat)
    requires Followed(w, row0, log, f, id) && e.writer != Some(id)
    ensures Followed(w, row0, log + [e], f, id)
  {
    hide RunThread, Trace, Unanswered, Replay;
    var cuts :| Follows(w, row0, log, f, id, cuts);
    assert (log + [e])[..f.arrived] == log[..f.arrived] && (log + [e])[..f.end] == log[..f.end];
    assert (log + [e])[f.arrived..f.end] == log[f.arrived..f.end];
    assert Follows(w, row0, log + [e], f, id, cuts);
  }

  /** The cut of a step: the statements that landed since the step before, the clock and the limiter as
      they stand, and what the step draws. */
  function CutOf(s: State, f: Flight, inp: Input): Cut
    requires f.end <= |s.log|
  {
    Cut(Statements(s.log[f.end..]), s.wall, Allowed(s.bucket, s.mono), inp)
  }

  lemma SeenSplits(log: seq<Entry>, a: nat, b: nat, own: seq<Entry>, id: nat)
    requires a <= b <= |log|
    requires forall k :: b <= k < |log| ==> log[k].writer != Some(id)
    ensures SeenBy((log + own)[a..], id) == SeenBy(log[a..b], id) + Foreign(Statements(log[b..])) + SeenBy(own, id)
  {
  }

  function NewEntries(w: World, s: State, id: nat, inp: Input): seq<Entry>
    requires id < |s.flights| && WellFormed(s.flights[id].thread)
  {
    if Landed(w, s.flights[id].thread, s.row, inp) then [EntryOf(w, s, id, inp)] else []
  }

  lemma LogGrows(w: World, row0: Row, s: State, id: nat, inp: Input)
    requires LawfulWorld(w) && Inv(w, row0, s) && Enabled(w, s, Proceed(id, inp))
    ensures ProceedWith(w, s, id, inp).log == s.log + NewEntries(w, s, id, inp)
  {
    hide Inv, LawfulWorld, FreshDraw, Allowed, StatementOf, ProceedWith, NoteOf;
    ProceedLog(w, row0, s, id, inp);
  }

  lemma OwnIsSeen(w: World, s: State, id: nat, inp: Input)
    requires id < |s.flights| && WellFormed(s.flights[id].thread)
    ensures SeenBy(NewEntries(w, s, id, inp), id) == Own(w, s.flights[id].thread, s.row, inp)
  {
    hide StatementOf, NoteOf;
  }

  /** What the step of handler id adds to its trace is what it adds to the history, with what landed since
      its step before. */
  lemma MoverIsTraced(w: World, row0: Row, s: State, id: nat, inp: Input)
    requires LawfulWorld(w) && Inv(w, row0, s) && Enabled(w, s, Proceed(id, inp))
    requires s.flights[id].arrived <= s.flights[id].end <= |s.log|
    requires forall k :: 0 <= k < |s.log| && s.log[k].writer == Some(id) ==> k < s.flights[id].end
    ensures var f, t := s.flights[id], ProceedWith(w, s, id, inp);
            && s.log <= t.log
            && SeenBy(t.log[f.arrived..], id)
               == SeenBy(s.log[f.arrived..f.end], id)
                  + ActsOf(w, (f.thread, RowAt(row0, s.log, f.end)), CutOf(s, f, inp))
  {
    hide Inv, LawfulWorld, Replay, ExecAll, FreshDraw, Allowed, StatementOf, ProceedWith, NoteOf, Legal, Own,
         NewEntries, SeenBy, Statements, Foreign, Placed, Issued;
    var f, t := s.flights[id], ProceedWith(w, s, id, inp);
    var own := NewEntries(w, s, id, inp);
    LogGrows(w, row0, s, id, inp);
    RowIsReplay(w, row0, s);
    ReplayIsExec(w, row0, s.log, f.end);
    SeenSplits(s.log, f.arrived, f.end, own, id);
    OwnIsSeen(w, s, id, inp);
  }

  lemma MoverMoves(w: World, row0: Row, s: State, id: nat, inp: Input)
    requires LawfulWorld(w) && Inv(w, row0, s) && Enabled(w, s, Proceed(id, inp)) && s.flights[id].end <= |s.log|
    ensures var f, t := s.flights[id], ProceedWith(w, s, id, inp); var g := t.flights[id];
            && g.request == f.request && g.arrived == f.arrived && g.end == |t.log|
            && t.row == Replay(row0, t.log)
            && (g.thread, t.row) == StepCut(w, f.thread, RowAt(row0, s.log, f.end), CutOf(s, f, inp))
  {
    hide Inv, LawfulWorld, Replay, ExecAll, FreshDraw, Allowed, Taken, StatementOf, NoteOf, Legal, Resume, Landed;
    ProceedLog(w, row0, s, id, inp);
    RowIsReplay(w, row0, s);
    ReplayIsExec(w, row0, s.log, s.flights[id].end);
  }

  lemma MoverIsFollowed(w: World, row0: Row, s: State, id: nat, inp: Input, cuts: seq<Cut>)
    requires LawfulWorld(w) && Inv(w, row0, s) && Enabled(w, s, Proceed(id, inp))
    requires Follows(w, row0, s.log, s.flights[id], id, cuts)
    requires forall k :: 0 <= k < |s.log| && s.log[k].writer == Some(id) ==> k < s.flights[id].end
    ensures var t := ProceedWith(w, s, id, inp);
            Follows(w, row0, t.log, t.flights[id], id, cuts + [CutOf(s, s.flights[id], inp)])
  {
    hide Inv, RunThread, Trace, LawfulWorld, Unanswered, Replay, FreshDraw, ActsOf, SeenBy, StepCut, ProceedWith, CutOf;
    var f, t := s.flights[id], ProceedWith(w, s, id, inp);
    var cut := CutOf(s, f, inp);
    var start, row := Start(f.request), RowAt(row0, s.log, f.arrived);
    assert GoodInput(cut.inp) by { CutHasInput(s, f, inp); }
    MoverMoves(w, row0, s, id, inp);
    MoverIsTraced(w, row0, s, id, inp);
    RunOne(w, start, row, cuts, cut);
    TraceOne(w, start, row, cuts, cut);
    StaysUnanswered(w, start, row, cuts, cut);
    assert t.log[..f.arrived] == s.log[..f.arrived] && t.log[..|t.log|] == t.log;
    assert t.log[f.arrived..|t.log|] == t.log[f.arrived..];
  }

  lemma CutHasInput(s: State, f: Flight, inp: Input)
    requires f.end <= |s.log|
    ensures CutOf(s, f, inp).inp == inp
  {
  }

  lemma RowIsReplay(w: World, row0: Row, s: State)
    requires Inv(w, row0, s)
    ensures s.row == Replay(row0, s.log) && Legal(w, row0, s.log)
  {
  }

  lemma ProceedKeepsFollowed(w: World, row0: Row, s: State, id: nat, inp: Input)
    requires LawfulWorld(w) && Inv(w, row0, s) && AllFollowed(w, row0, s) && Enabled(w, s, Proceed(id, inp))
    ensures AllFollowed(w, row0, ProceedWith(w, s, id, inp))
  {
    hide Inv, Follows, Resume, FreshDraw, LawfulWorld, StatementOf;
    var f, t := s.flights[id], ProceedWith(w, s, id, inp);
    assert |t.flights| == |s.flights| && WritersKnown(t.log, |t.flights|);
    forall i | 0 <= i < |t.flights|
      ensures Followed(w, row0, t.log, t.flights[i], i)
    {
      assert Followed(w, row0, s.log, s.flights[i], i);
      if i == id {
        var cuts :| Follows(w, row0, s.log, f, id, cuts);
        FollowsBounds(w, row0, s.log, f, id, cuts);
        MoverIsFollowed(w, row0, s, id, inp, cuts);
      } else if Landed(w, f.thread, s.row, inp) {
        AppendKeepsFollowed(w, row0, s.log, EntryOf(w, s, id, inp), s.flights[i], i);
      }
    }
  }

  lemma FollowsBounds(w: World, row0: Row, log: seq<Entry>, f: Flight, id: nat, cuts: seq<Cut>)
    requires Follows(w, row0, log, f, id, cuts)
    ensures f.arrived <= f.end <= |log|
  {
  }

  lemma NextKeepsFollowed(w: World, row0: Row, s: State, a: Action)
    requires LawfulWorld(w) && Inv(w, row0, s) && AllFollowed(w, row0, s) && Enabled(w, s, a)
    ensures AllFollowed(w, row0, Next(w, s, a))
  {
    hide Inv, HashPassword, ProceedWith, Follows, LawfulWorld;
    var t := Next(w, s, a);
    match a {
      case Arrive(request) =>
        var id, f := |s.flights|, t.flights[|s.flights|];
        JustArrived(w, row0, s.log, f, id);
        assert Follows(w, row0, t.log, f, id, []);
        assert Followed(w, row0, t.log, f, id);
        assert forall i :: 0 <= i < |s.flights| ==> Followed(w, row0, s.log, s.flights[i], i);
      case Proceed(id, inp) => ProceedKeepsFollowed(w, row0, s, id, inp);
      case Tick(_, _) =>
        assert forall i :: 0 <= i < |s.flights| ==> Followed(w, row0, s.log, s.flights[i], i);
      case ResetByShell(password, salt) =>
        var e := Entry(None, Reset(HashPassword(w.pw, password, salt)), Typed(password));
        forall i | 0 <= i < |s.flights|
          ensures Followed(w, row0, t.log, t.flights[i], i)
        {
          AppendKeepsFollowed(w, row0, s.log, e, s.flights[i], i);
        }
    }
  }

  lemma JustArrived(w: World, row0: Row, log: seq<Entry>, f: Flight, id: nat)
    requires f.thread == Start(f.request) && f.arrived == f.end == |log|
    ensures Follows(w, row0, log, f, id, [])
  {
  }

  lemma {:induction false} FollowedHolds(w: World, row0: Row, wall: int, mono: real, run: seq<Action>)
    requires LawfulWorld(w) && RowOk(row0) && ValidRun(w, Initial(row0, wall, mono), run)
    ensures AllFollowed(w, row0, After(w, Initial(row0, wall, mono), run))
  {
    if run != [] {
      var front := run[..|run| - 1];
      Reachable(w, row0, wall, mono, front);
      FollowedHolds(w, row0, wall, mono, front);
      NextKeepsFollowed(w, row0, After(w, Initial(row0, wall, mono), front), run[|run| - 1]);
    }
  }

  /** Every handler in flight in a run is its thread run alone, cut where it was cut. */
  lemma FlightIsThread(g: Setting, run: seq<Action>, id: nat) returns (cuts: seq<Cut>)
    requires Runs(g, run) && id < |End(g, run).flights|
    ensures var s := End(g, run); Follows(g.w, g.row0, s.log, s.flights[id], id, cuts)
  {
    hide Follows;
    FollowedHolds(g.w, g.row0, g.wall, g.mono, run);
    var s := End(g, run);
    assert Followed(g.w, g.row0, s.log, s.flights[id], id);
    cuts :| Follows(g.w, g.row0, s.log, s.flights[id], id, cuts);
  }

  // ---- the imperative handlers among the cuts of a flight ----

  /** Cuts in which nobody else writes. */
  ghost predicate Idle(cuts: seq<Cut>) {
    GoodCuts(cuts) && forall k :: 0 <= k < |cuts| ==> cuts[k].others == []
  }

  lemma AnsweredStands(w: World, answer: Answer, row: Row, cut: Cut)
    requires GoodInput(cut.inp) && cut.others == []
    ensures StepCut(w, Answered(answer), row, cut) == (Answered(answer), row)
  {
  }

  lemma {:induction false} AnswerStays(w: World, start: Thread, row: Row, cuts: seq<Cut>, pad: seq<Cut>)
    requires GoodCuts(cuts) && Idle(pad) && WellFormed(start) && RunThread(w, start, row, cuts).0.Answered?
    ensures GoodCuts(cuts + pad) && RunThread(w, start, row, cuts + pad) == RunThread(w, start, row, cuts)
    decreases |pad|
  {
    hide RunThread, StepCut;
    if pad == [] {
      assert cuts + pad == cuts;
    } else {
      var front, cut := pad[..|pad| - 1], pad[|pad| - 1];
      var r := RunThread(w, start, row, cuts);
      AnswerStays(w, start, row, cuts, front);
      assert cuts + pad == (cuts + front) + [cut];
      RunOne(w, start, row, cuts + front, cut);
      AnsweredStands(w, r.0.answer, r.1, cut);
    }
  }

  /** Among the cuts of a flight that answered, a handler that ends as its steps do answers as the flight
      did and leaves the row the flight left. Whatever the results say of the flight, they say of it. */
  lemma ServedAsFlight(g: Setting, run: seq<Action>, id: nat, cuts: seq<Cut>, pad: seq<Cut>,
                       used: nat, answer: Answer, out: Row)
    requires Runs(g, run) && id < |End(g, run).flights|
    requires var s := End(g, run); var f := s.flights[id];
             && f.thread.Answered? && Follows(g.w, g.row0, s.log, f, id, cuts) && Idle(pad) && GoodCuts(cuts + pad)
             && At(g.w, Start(f.request), RowAt(g.row0, s.log, f.arrived), cuts + pad, used, Answered(answer), out)
    ensures var s := End(g, run); var f := s.flights[id];
            f.thread.answer == answer && out == RowAt(g.row0, s.log, f.end)
  {
    hide RunThread, Trace, Runs, End;
    var f := End(g, run).flights[id];
    var start, row := Start(f.request), RowAt(g.row0, End(g, run).log, f.arrived);
    assert forall n :: 0 <= n <= |cuts| ==> (cuts + pad)[..n] == cuts[..n];
    assert (cuts + pad)[..used] == cuts + pad[..used - |cuts|];
    AnswerStays(g.w, start, row, cuts, pad[..used - |cuts|]);
  }

  // ---- what other requests write is well formed ----

  lemma {:induction false} OthersAreTraced(w: World, start: Thread, row: Row, cuts: seq<Cut>, k: nat, j: nat)
    requires GoodCuts(cuts) && WellFormed(start) && k < |cuts| && j < |cuts[k].others|
    ensures Act(false, cuts[k].others[j]) in Trace(w, start, row, cuts)
  {
    var front, cut := cuts[..|cuts| - 1], cuts[|cuts| - 1];
    TraceOne(w, start, row, front, cut);
    assert cuts == front + [cut];
    if k < |cuts| - 1 {
      OthersAreTraced(w, start, row, front, k, j);
    } else {
      assert Act(false, cut.others[j]) == Foreign(cut.others)[j];
    }
  }

  lemma DrawIsPlain(w: World, plain: seq<string>, hashes: seq<string>)
    requires LawfulWorld(w) && FromOneDraw(w, plain, hashes)
    ensures HashTexts(hashes)
  {
    hide Lawful, ReadsBack, VerifyPassword;
    var raws, salts :| IsDraw(w, raws, salts, plain, hashes);
    forall k | 0 <= k < |hashes|
      ensures HashText(hashes[k])
    {
      assert hashes[k] == w.bcryptHash(Code(raws[k]), salts[k]);
    }
  }

  lemma WriteStaysPlain(w: World, row: Row, placed: set<string>, issued: set<string>, e: Entry)
    requires AdmissibleOn(w, row, placed, issued, e) && HashTexts(row.List())
    requires e.stmt.Enable? ==> HashTexts(e.stmt.hashes)
    ensures HashesOnly(e.stmt) && HashTexts(Write(row, e.stmt).List())
  {
    hide FreshHash, Distinct;
    if e.stmt.ReplaceCodes? {
      var i :| 0 <= i < |e.stmt.prev| && e.stmt.remaining == RemoveAt(e.stmt.prev, i);
      RemovalStaysPlain(e.stmt.prev, i);
    }
  }

  lemma {:induction false} PlainHistory(w: World, row0: Row, log: seq<Entry>)
    requires Legal(w, row0, log) && HashTexts(row0.List())
    requires forall k :: 0 <= k < |log| && log[k].stmt.Enable? ==> HashTexts(log[k].stmt.hashes)
    ensures HashTexts(Replay(row0, log).List())
    ensures forall k :: 0 <= k < |log| ==> HashesOnly(log[k].stmt)
  {
    hide AdmissibleOn, HashTexts, HashesOnly;
    if log != [] {
      var front, e := Front(log), Last(log);
      assert e == log[|log| - 1];
      PlainHistory(w, row0, front);
      WriteStaysPlain(w, Replay(row0, front), Placed(row0, front), Issued(row0, front), e);
    }
  }

  /** From a row of bcrypt hashes a run writes nothing but bcrypt hashes into the list. */
  lemma WritesHashes(g: Setting, run: seq<Action>)
    requires Runs(g, run) && HashTexts(g.row0.List())
    ensures forall k :: 0 <= k < |End(g, run).log| ==> HashesOnly(End(g, run).log[k].stmt)
  {
    hide End, HashTexts, FromOneDraw, HashesOnly, LawfulWorld, ValidRun, Inv;
    var s := End(g, run);
    EndInv(g, run);
    RowIsReplay(g.w, g.row0, s);
    forall k | 0 <= k < |s.log| && s.log[k].stmt.Enable?
      ensures HashTexts(s.log[k].stmt.hashes)
    {
      var id := EnableHandedOut(g, run, k);
      DrawIsPlain(g.w, s.flights[id].thread.answer.plain, s.log[k].stmt.hashes);
    }
    PlainHistory(g.w, g.row0, s.log);
  }

  /** So the cuts of a flight are a schedule for its handler. */
  lemma CutsAreSchedule(g: Setting, run: seq<Action>, id: nat, cuts: seq<Cut>, pad: seq<Cut>)
    requires Runs(g, run) && id < |End(g, run).flights| && HashTexts(g.row0.List())
    requires var s := End(g, run); Follows(g.w, g.row0, s.log, s.flights[id], id, cuts)
    requires Idle(pad)
    ensures Schedule(cuts + pad, |cuts + pad|)
  {
    hide RunThread, Trace, Runs, End, HashTexts, HashesOnly, Unanswered;
    var s := End(g, run);
    var f := s.flights[id];
    WritesHashes(g, run);
    var all := cuts + pad;
    forall k, j | 0 <= k < |all| && 0 <= j < |all[k].others|
      ensures HashesOnly(all[k].others[j])
    {
      assert k < |cuts|;
      OthersAreTraced(g.w, Start(f.request), RowAt(g.row0, s.log, f.arrived), cuts, k, j);
      var acts := SeenBy(s.log[f.arrived..f.end], id);
      var x :| 0 <= x < |acts| && acts[x] == Act(false, cuts[k].others[j]);
      assert acts[x].stmt == s.log[f.arrived + x].stmt;
    }
  }

  /** A row stored as the flight found it, and the cuts of the flight with enough idle ones after them. */
  ghost predicate Serves(g: Setting, run: seq<Action>, id: nat, db: UserStore, cuts: seq<Cut>, own: nat)
    requires Runs(g, run) && id < |End(g, run).flights|
    reads db
  {
    var s := End(g, run);
    var f := s.flights[id];
    && db.Valid() && HashTexts(g.row0.List()) && f.arrived <= |s.log| && db.View() == RowAt(g.row0, s.log, f.arrived)
    && f.thread.Answered? && own <= |cuts| && Follows(g.w, g.row0, s.log, f, id, cuts[..own]) && Idle(cuts[own..])
  }

  lemma ServesSchedule(g: Setting, run: seq<Action>, id: nat, db: UserStore, cuts: seq<Cut>, own: nat, steps: nat)
    requires Runs(g, run) && id < |End(g, run).flights| && Serves(g, run, id, db, cuts, own) && steps <= |cuts|
    ensures Schedule(cuts, steps)
  {
    hide Follows, Idle, Runs, End, HashTexts, HashesOnly;
    assert cuts == cuts[..own] + cuts[own..];
    CutsAreSchedule(g, run, id, cuts[..own], cuts[own..]);
  }

  /** The writes that a flight landed, all of them between its arrival and its answer. */
  ghost function WritesOf(g: Setting, run: seq<Action>, id: nat): seq<Statement>
    requires Runs(g, run)
  {
    WritesBy(End(g, run).log, id)
  }

  /** The verify itself, served in a run: when it answers with a session, it was shown a live token and
      read an enabled row, its factor was right for that row, and exactly one write of its own, the one
      that spends the factor, landed. When it refuses, none did. */
  method VerifyServed(ghost g: Setting, ghost run: seq<Action>, ghost id: nat, ghost own: nat,
                      w: World, db: UserStore, token: Token, code: string, recovery: string, cuts: seq<Cut>)
    returns (answer: Answer)
    requires Runs(g, run) && g.w == w && id < |End(g, run).flights| && |cuts| >= 4
    requires End(g, run).flights[id].request == VerifyRequest(token, code, recovery)
    requires Serves(g, run, id, db, cuts, own)
    modifies db
    ensures var s := End(g, run); var f := s.flights[id]; var ws := WritesOf(g, run, id);
            && db.Valid() && f.end <= |s.log| && db.View() == RowAt(g.row0, s.log, f.end)
            && f.thread == Answered(answer) && f.first <= |s.log|
            && var was := RowAt(g.row0, s.log, f.first);
               && (answer.Session? ==>
                     was.enabled && LivePreAuth(token, f.startedAt) && FactorSpent(w, f.request, was, ws))
               && (answer.Failure? && answer.reason != ServiceError ==> ws == [])
  {
    hide Follows, Idle, Runs, End, At, RunThread, FactorSpent, Replay, HashTexts, LivePreAuth;
    ghost var start, row := Start(VerifyRequest(token, code, recovery)), db.View();
    ServesSchedule(g, run, id, db, cuts, own, 4);
    assert cuts == cuts[..own] + cuts[own..];
    FlightKnows(g, run, id);
    AnswersMeanWrites(g, run, id);
    var used;
    answer, used := PostUser2FAVerify(w, db, token, code, recovery, cuts);
    ServedAsFlight(g, run, id, cuts[..own], cuts[own..], used, answer, db.View());
    FollowsBounds(w, g.row0, End(g, run).log, End(g, run).flights[id], id, cuts[..own]);
  }

  /** The login itself, served in a run: it answers with a session or stops at the factor by what the row
      was at an instant between its first read and its answer; and with a wrong password it writes
      nothing. */
  method LoginServed(ghost g: Setting, ghost run: seq<Action>, ghost id: nat, ghost own: nat,
                     w: World, db: UserStore, password: string, cuts: seq<Cut>)
    returns (answer: Answer)
    requires Runs(g, run) && g.w == w && id < |End(g, run).flights| && |cuts| >= 4
    requires End(g, run).flights[id].request == LoginRequest(password) && Serves(g, run, id, db, cuts, own)
    modifies db
    ensures var s := End(g, run); var f := s.flights[id]; var ws := WritesOf(g, run, id);
            && db.Valid() && f.end <= |s.log| && db.View() == RowAt(g.row0, s.log, f.end)
            && f.thread == Answered(answer) && f.first <= f.last <= f.end
            && var was := RowAt(g.row0, s.log, f.first);
               && (!answer.Failure? ==> VerifyPassword(w.pw, was.password, password))
               && (answer.Session? ==> !RowAt(g.row0, s.log, f.last).enabled)
               && (answer.PreAuth? ==> RowAt(g.row0, s.log, f.last).enabled)
               && LoginExplains(w, password, answer, was, ws)
  {
    hide Follows, Idle, Runs, End, At, RunThread, LoginExplains, Replay, HashTexts, VerifyPassword;
    ServesSchedule(g, run, id, db, cuts, own, 4);
    assert cuts == cuts[..own] + cuts[own..];
    FlightKnows(g, run, id);
    AnswersMeanWrites(g, run, id);
    var used;
    answer, used := PostUserLogin(w, db, password, cuts);
    ServedAsFlight(g, run, id, cuts[..own], cuts[own..], used, answer, db.View());
    FollowsBounds(w, g.row0, End(g, run).log, End(g, run).flights[id], id, cuts[..own]);
  }
}
