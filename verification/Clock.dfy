/** What a wall clock that never moves back adds: no step beyond the next one is ever accepted. */
module Clock {
  import opened World
  import opened Password
  import opened Rows
  import opened Recovery
  import opened Totp
  import opened History
  import opened Handlers
  import opened Server

  ghost predicate ClockForward(w: World, s0: State, run: seq<Action>)
    requires ValidRun(w, s0, run)
  {
    forall k :: 0 <= k < |run| ==> ForwardAt(w, s0, run, k)
  }

  ghost predicate ForwardAt(w: World, s0: State, run: seq<Action>, k: nat)
    requires k < |run|
  {
    run[k].Tick? && ValidRun(w, s0, run[..k]) ==> run[k].wall >= After(w, s0, run[..k]).wall
  }

  ghost predicate StepNotAhead(t: Thread, wall: int) {
    && (t.VerifyConsume? ==> t.step <= CurrentStep(wall) + 1)
    && (t.EnableWrite? ==> t.step <= CurrentStep(wall) + 1)
  }

  ghost predicate NotAhead(s: State) {
    && StepsAtMost(s.log, CurrentStep(s.wall) + 1)
    && forall i :: 0 <= i < |s.flights| ==> StepNotAhead(s.flights[i].thread, s.wall)
  }

  lemma StepStaysNotAhead(w: World, t: Thread, v: View, inp: Input, landed: bool)
    requires GoodInput(inp) && StepNotAhead(t, v.wall)
    ensures StepNotAhead(Resume(w, t, v, inp, landed), v.wall)
  {
    hide VerifyPassword, NeedsRehash, HashPassword, FirstMatch;
  }

  lemma ProceedKeepsNotAhead(w: World, s: State, id: nat, inp: Input)
    requires NotAhead(s) && Enabled(w, s, Proceed(id, inp))
    ensures NotAhead(ProceedWith(w, s, id, inp))
  {
    hide VerifyPassword, NeedsRehash, HashPassword, FirstMatch, Resume;
    var f, t := s.flights[id], ProceedWith(w, s, id, inp);
    StepStaysNotAhead(w, f.thread, ViewOf(s), inp, Landed(w, f.thread, s.row, inp));
    assert StepNotAhead(f.thread, s.wall);
    forall i | 0 <= i < |t.flights|
      ensures StepNotAhead(t.flights[i].thread, t.wall)
    {
      assert i != id ==> t.flights[i] == s.flights[i];
    }
  }

  lemma TickKeepsNotAhead(w: World, s: State, wall: int, elapsed: real)
    requires NotAhead(s) && wall >= s.wall
    ensures NotAhead(Next(w, s, Tick(wall, elapsed)))
  {
    CurrentStepMonotone(s.wall, wall);
    assert forall i :: 0 <= i < |s.flights| ==> StepNotAhead(s.flights[i].thread, s.wall);
  }

  /** On a clock that never moves back, no step that was accepted or is about to be lies beyond the next
      one, whatever the row held at first. */
  lemma {:induction false} NeverAhead(w: World, row0: Row, wall: int, mono: real, run: seq<Action>)
    requires ValidRun(w, Initial(row0, wall, mono), run) && ClockForward(w, Initial(row0, wall, mono), run)
    ensures NotAhead(After(w, Initial(row0, wall, mono), run))
    ensures After(w, Initial(row0, wall, mono), run).wall >= wall
  {
    var s0 := Initial(row0, wall, mono);
    if run != [] {
      var front, a := run[..|run| - 1], run[|run| - 1];
      forall k | 0 <= k < |front|
        ensures ForwardAt(w, s0, front, k)
      {
        assert ForwardAt(w, s0, run, k);
        assert front[..k] == run[..k];
      }
      NeverAhead(w, row0, wall, mono, front);
      assert ForwardAt(w, s0, run, |run| - 1);
      NextKeepsNotAhead(w, After(w, s0, front), a);
    }
  }

  lemma NextKeepsNotAhead(w: World, s: State, a: Action)
    requires NotAhead(s) && Enabled(w, s, a)
    requires a.Tick? ==> a.wall >= s.wall
    ensures NotAhead(Next(w, s, a))
  {
    match a {
      case Proceed(id, inp) => ProceedKeepsNotAhead(w, s, id, inp);
      case Tick(later, elapsed) => TickKeepsNotAhead(w, s, later, elapsed);
      case _ =>
    }
  }
}
