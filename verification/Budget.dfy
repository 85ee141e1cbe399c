/** The per-user budget over runs: a request gets past its limiter once, with one token of the bucket. */
module Budget {
  import opened Prelude
  import opened World
  import opened Password
  import opened Rows
  import opened Totp
  import opened Recovery
  import opened History
  import opened Limiter
  import opened Handlers
  import opened Server
  import opened Invariants

  /** A handler that has not asked the limiter yet, or whose request never does. */
  predicate BeforeLimiter(t: Thread) {
    t.Start? || AtLimiter(t)
  }

  /** A handler that is comparing a code or a password, or writing on the strength of that. */
  predicate Checking(t: Thread) {
    || (InVerify(t) && !t.VerifyLimit?) || t.VerifyList? || t.SetupCheck? || t.SetupWrite?
    || t.EnableCheck? || t.EnableWrite? || t.EnableReread? || t.DisableCheck? || t.DisableWrite?
  }

  /** An answer that only a check can give. */
  predicate Granted(f: Flight) {
    match f.thread
    case Answered(Session(_, _)) => f.request.VerifyRequest?
    case Answered(PendingSecret(_)) => true
    case Answered(RecoveryCodes(_)) => true
    case Answered(Success) => f.request.DisableRequest?
    case _ => false
  }

  ghost predicate AdmittedOnce(flights: seq<Flight>, ids: seq<nat>) {
    && Distinct(ids)
    && (forall k :: 0 <= k < |ids| ==> ids[k] < |flights| && !BeforeLimiter(flights[ids[k]].thread))
    && (forall i :: 0 <= i < |flights| && (Checking(flights[i].thread) || Granted(flights[i])) ==> i in ids)
  }

  ghost predicate WithinBudget(s: State) {
    && |s.admitted| == |s.admittedFor|
    && Accounts(s.bucket, s.admitted) && s.bucket.last <= s.mono
    && AdmittedOnce(s.flights, s.admittedFor)
  }

  /** Each handler serves its own kind of request. */
  predicate OfRequest(f: Flight) {
    match f.thread
    case Start(request) => request == f.request
    case LoginSwap(_, _) => f.request.LoginRequest?
    case LoginClear(_) => f.request.LoginRequest?
    case LoginReread => f.request.LoginRequest?
    case PasswordWrite(_, _) => f.request.PasswordRequest?
    case _ => true
  }

  lemma FactsOfRequest(w: World, f: Flight, was: Row, seen: Row)
    requires ThreadFacts(w, f, was, seen)
    ensures OfRequest(f)
  {
  }

  lemma BeginsBeforeCheck(w: World, request: Request, v: View, inp: Input)
    ensures var t := Begin(w, request, v, inp);
            && !Checking(t)
            && (t.Answered? && !t.answer.Failure? ==> request.LoginRequest? || request.RefreshRequest?)
            && (t.Answered? && !t.answer.Failure? ==> t.answer.Session? || t.answer.PreAuth?)
  {
  }

  lemma ContinuesAfterLimiter(w: World, f: Flight, v: View, inp: Input, landed: bool)
    requires GoodInput(inp) && !f.thread.Answered? && !f.thread.Start? && OfRequest(f)
    ensures var t := Resume(w, f.thread, v, inp, landed);
            && (Checking(t) || Granted(f.(thread := t)) ==> Checking(f.thread) || (AtLimiter(f.thread) && v.allowed))
            && !BeforeLimiter(t)
  {
    hide VerifyPassword, NeedsRehash, HashPassword, VerifyTOTP, FirstMatch;
  }

  /** A check, or the answer of one, is reached only from a check or through the limiter. */
  lemma OnlyThroughLimiter(w: World, s: State, f: Flight, inp: Input)
    requires WellFormed(f.thread) && GoodInput(inp) && !f.thread.Answered? && OfRequest(f)
    ensures var g := Flew(w, s, f, inp);
            && (Checking(g.thread) || Granted(g) ==>
                  Checking(f.thread) || (AtLimiter(f.thread) && Allowed(s.bucket, s.mono)))
            && (BeforeLimiter(g.thread) ==> f.thread.Start?)
  {
    var g := Flew(w, s, f, inp);
    if f.thread.Start? {
      BeginsBeforeCheck(w, f.request, ViewOf(s), inp);
      assert g.thread == Begin(w, f.request, ViewOf(s), inp);
    } else {
      ContinuesAfterLimiter(w, f, ViewOf(s), inp, Landed(w, f.thread, s.row, inp));
    }
  }

  lemma AdmissionStep(flights: seq<Flight>, ids: seq<nat>, id: nat, g: Flight, admits: bool)
    requires id < |flights| && AdmittedOnce(flights, ids)
    requires BeforeLimiter(g.thread) ==> flights[id].thread.Start?
    requires admits ==> AtLimiter(flights[id].thread)
    requires Checking(g.thread) || Granted(g) ==> Checking(flights[id].thread) || admits
    ensures AdmittedOnce(flights[id := g], if admits then ids + [id] else ids)
  {
    if admits {
      assert forall k :: 0 <= k < |ids| ==> ids[k] != id;
      assert forall i :: i in ids ==> i in ids + [id];
    }
  }

  lemma ProceedKeepsBudget(w: World, row0: Row, s: State, id: nat, inp: Input)
    requires Inv(w, row0, s) && WithinBudget(s) && Enabled(w, s, Proceed(id, inp))
    ensures WithinBudget(ProceedWith(w, s, id, inp))
  {
    var f, t := s.flights[id], ProceedWith(w, s, id, inp);
    assert FlightOk(w, row0, s.log, f);
    FactsOfRequest(w, f, RowAt(row0, s.log, f.first), RowAt(row0, s.log, f.last));
    OnlyThroughLimiter(w, s, f, inp);
    assert t.flights[id] == Flew(w, s, f, inp);
    AdmissionStep(s.flights, s.admittedFor, id, t.flights[id], AtLimiter(f.thread) && Allowed(s.bucket, s.mono));
    TakingKeepsAccounts(s.bucket, s.admitted, s.mono);
  }

  lemma NextKeepsBudget(w: World, row0: Row, s: State, a: Action)
    requires Inv(w, row0, s) && WithinBudget(s) && Enabled(w, s, a)
    ensures WithinBudget(Next(w, s, a))
  {
    match a {
      case Proceed(id, inp) => ProceedKeepsBudget(w, row0, s, id, inp);
      case _ =>
    }
  }

  lemma {:induction false} BudgetHolds(w: World, row0: Row, wall: int, mono: real, run: seq<Action>)
    requires LawfulWorld(w) && RowOk(row0) && ValidRun(w, Initial(row0, wall, mono), run)
    ensures WithinBudget(After(w, Initial(row0, wall, mono), run))
  {
    if run != [] {
      var front := run[..|run| - 1];
      Reachable(w, row0, wall, mono, front);
      BudgetHolds(w, row0, wall, mono, front);
      NextKeepsBudget(w, row0, After(w, Initial(row0, wall, mono), front), run[|run| - 1]);
    }
  }
}
