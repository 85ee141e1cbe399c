/** Histories of landed writes. A history is legal when each write matched its key on the row it found,
    was issued by a handler that had made its checks, and placed only fresh secrets and hashes.
    Everything proved here holds of every legal history; Server shows that every run makes one. */
module History {
  import opened Prelude
  import opened World
  import opened Password
  import opened Rows
  import opened Totp

  /** What the writing handler knew and the statement does not say. */
  datatype Note = Nothing | CheckedAt(now: int) | Typed(password: string) | Spent(hash: string)

  /** writer is the handler that issued the statement, or None for the shell command. */
  datatype Entry = Entry(writer: Option<nat>, stmt: Statement, note: Note)

  function Last(log: seq<Entry>): Entry
    requires log != []
  {
    log[|log| - 1]
  }

  function Front(log: seq<Entry>): seq<Entry>
    requires log != []
  {
    log[..|log| - 1]
  }

  /** The row after the writes of log. */
  function Replay(row0: Row, log: seq<Entry>): Row {
    if log == [] then row0 else Write(Replay(row0, Front(log)), Last(log).stmt)
  }

  function RowAt(row0: Row, log: seq<Entry>, k: nat): Row
    requires k <= |log|
  {
    Replay(row0, log[..k])
  }

  /** Every secret that was ever in the row. */
  function Placed(row0: Row, log: seq<Entry>): set<string> {
    if log == [] then {row0.secret}
    else Placed(row0, Front(log)) + (if Last(log).stmt.SetPending? then {Last(log).stmt.secret} else {})
  }

  /** Every recovery hash that was ever in the row. */
  function Issued(row0: Row, log: seq<Entry>): set<string> {
    if log == [] then set h | h in row0.List()
    else Issued(row0, Front(log)) + (if Last(log).stmt.Enable? then set h | h in Last(log).stmt.hashes else {})
  }

  ghost predicate FreshHash(w: World, stored: string, note: Note) {
    && note.Typed? && note.password in w.passwords
    && VerifyPassword(w.pw, stored, note.password)
    && !NeedsRehash(w.pw, stored)
  }

  /** What a write needs of the row it finds and of the secrets and hashes already seen. */
  ghost predicate AdmissibleOn(w: World, row: Row, placed: set<string>, issued: set<string>, e: Entry) {
    && Matches(row, e.stmt)
    && match e.stmt
       case SetPending(secret) => secret != "" && secret !in placed
       case Enable(secret, step, hashes) =>
         && secret != "" && step >= 1
         && e.note.CheckedAt? && CurrentStep(e.note.now) - 1 <= step <= CurrentStep(e.note.now) + 1
         && |hashes| == 8 && Distinct(hashes) && (forall h :: h in hashes ==> h !in issued)
       case ClearPending(secret) => secret != ""
       case Disable(secret) => secret != ""
       case ConsumeStep(step) => step >= 1
       case ReplaceCodes(prev, remaining) =>
         e.note.Spent? && exists i :: 0 <= i < |prev| && prev[i] == e.note.hash && remaining == RemoveAt(prev, i)
       case ReplacePassword(current, replacement) =>
         && FreshHash(w, replacement, e.note)
         && VerifyPassword(w.pw, current, e.note.password) && NeedsRehash(w.pw, current)
       case UpdatePassword(password) => FreshHash(w, password, e.note)
       case Reset(password) => FreshHash(w, password, e.note)
  }

  ghost predicate Admissible(w: World, row0: Row, log: seq<Entry>, e: Entry) {
    AdmissibleOn(w, Replay(row0, log), Placed(row0, log), Issued(row0, log), e)
  }

  ghost predicate Legal(w: World, row0: Row, log: seq<Entry>) {
    log == [] || (Legal(w, row0, Front(log)) && Admissible(w, row0, Front(log), Last(log)))
  }

  /** Prefixes of a legal history are legal, and each entry was admissible where it stands. */
  lemma {:induction false} LegalPrefix(w: World, row0: Row, log: seq<Entry>, k: nat)
    requires Legal(w, row0, log) && k <= |log|
    ensures Legal(w, row0, log[..k])
    ensures k < |log| ==> Admissible(w, row0, log[..k], log[k])
    ensures k < |log| ==> RowAt(row0, log, k + 1) == Write(RowAt(row0, log, k), log[k].stmt)
  {
    if k == |log| {
      assert log[..k] == log;
    } else {
      assert log[..k + 1][..k] == log[..k];
      if k == |log| - 1 {
        assert log[..k + 1] == log;
      } else {
        LegalPrefix(w, row0, Front(log), k);
        assert Front(log)[..k] == log[..k];
      }
    }
  }

  // ---- the row itself ----

  ghost predicate RowOk(row: Row) {
    && row.lastStep >= 0
    && (row.enabled ==> row.secret != "" && row.lastStep >= 1 && |row.List()| <= 8)
    && (!row.enabled ==> row.List() == [])
    && Distinct(row.List())
  }

  lemma WriteKeepsRowOk(w: World, row0: Row, log: seq<Entry>, e: Entry)
    requires RowOk(Replay(row0, log)) && Admissible(w, row0, log, e)
    ensures RowOk(Write(Replay(row0, log), e.stmt))
  {
    match e.stmt {
      case ReplaceCodes(prev, remaining) =>
        var i :| 0 <= i < |prev| && remaining == RemoveAt(prev, i);
        RemoveAtContents(prev, i);
      case _ =>
    }
  }

  lemma {:induction false} RowAlwaysOk(w: World, row0: Row, log: seq<Entry>)
    requires RowOk(row0) && Legal(w, row0, log)
    ensures RowOk(Replay(row0, log))
  {
    if log != [] {
      RowAlwaysOk(w, row0, Front(log));
      WriteKeepsRowOk(w, row0, Front(log), Last(log));
    }
  }

  /** What a recovery write took out is the one hash it noted. */
  lemma SpentIsTaken(w: World, row0: Row, log: seq<Entry>, k: nat, i: nat)
    requires RowOk(row0) && Legal(w, row0, log)
    requires k < |log| && log[k].stmt.ReplaceCodes?
    requires i < |log[k].stmt.prev| && log[k].stmt.remaining == RemoveAt(log[k].stmt.prev, i)
    ensures log[k].note == Spent(log[k].stmt.prev[i])
  {
    RecoveryLandsEnabled(w, row0, log, k);
    LegalPrefix(w, row0, log, k);
    RowAlwaysOk(w, row0, log[..k]);
    RemoveAtContents(log[k].stmt.prev, i);
  }

  /** A recovery code is spent on an enabled row whose list holds its hash, and is gone afterwards,
      although the key of the write says nothing of totp_enabled. */
  lemma RecoveryLandsEnabled(w: World, row0: Row, log: seq<Entry>, k: nat)
    requires RowOk(row0) && Legal(w, row0, log)
    requires k < |log| && log[k].stmt.ReplaceCodes?
    ensures log[k].note.Spent?
    ensures RowAt(row0, log, k).enabled && log[k].note.hash in RowAt(row0, log, k).List()
    ensures log[k].note.hash !in RowAt(row0, log, k + 1).List()
    ensures |RowAt(row0, log, k + 1).List()| == |RowAt(row0, log, k).List()| - 1
  {
    LegalPrefix(w, row0, log, k);
    RowAlwaysOk(w, row0, log[..k]);
    var prev, remaining := log[k].stmt.prev, log[k].stmt.remaining;
    var i :| 0 <= i < |prev| && prev[i] == log[k].note.hash && remaining == RemoveAt(prev, i);
    RemoveAtContents(prev, i);
  }

  // ---- one enrolment: its codes ----

  function EnrolledAfter(enrolled: seq<string>, stmt: Statement): seq<string> {
    match stmt
    case Enable(_, _, hashes) => hashes
    case Disable(_) => []
    case Reset(_) => []
    case _ => enrolled
  }

  /** The hashes the enrolment in force began with. */
  function Enrolled(row0: Row, log: seq<Entry>): seq<string> {
    if log == [] then row0.List() else EnrolledAfter(Enrolled(row0, Front(log)), Last(log).stmt)
  }

  function UsesAfter(uses: seq<string>, e: Entry): seq<string> {
    match e.stmt
    case Enable(_, _, _) => []
    case Disable(_) => []
    case Reset(_) => []
    case ReplaceCodes(_, _) => uses + (if e.note.Spent? then [e.note.hash] else [])
    case _ => uses
  }

  /** The hashes spent since it began. */
  function Uses(log: seq<Entry>): seq<string> {
    if log == [] then [] else UsesAfter(Uses(Front(log)), Last(log))
  }

  ghost predicate Balanced(list: seq<string>, enrolled: seq<string>, uses: seq<string>) {
    && Subsequence(list, enrolled)
    && |list| + |uses| == |enrolled|
    && multiset(list) + multiset(uses) == multiset(enrolled)
  }

  lemma NothingSpentYet(hashes: seq<string>)
    ensures Balanced(hashes, hashes, [])
  {
    SubsequenceReflexive(hashes);
  }

  lemma SpendingKeepsBalance(list: seq<string>, i: nat, enrolled: seq<string>, uses: seq<string>)
    requires Balanced(list, enrolled, uses) && i < |list|
    ensures Balanced(RemoveAt(list, i), enrolled, uses + [list[i]])
  {
    RemoveAtContents(list, i);
    SubsequenceRemoveAt(list, enrolled, i);
  }

  lemma WriteKeepsBalance(w: World, row0: Row, log: seq<Entry>, e: Entry, enrolled: seq<string>, uses: seq<string>)
    requires Admissible(w, row0, log, e)
    requires Balanced(Replay(row0, log).List(), enrolled, uses)
    ensures Balanced(Write(Replay(row0, log), e.stmt).List(), EnrolledAfter(enrolled, e.stmt), UsesAfter(uses, e))
  {
    hide FreshHash, Balanced, LawfulWorld, Distinct, Placed, Issued, CurrentStep;
    match e.stmt {
      case Enable(_, _, hashes) => NothingSpentYet(hashes);
      case Disable(_) => NothingSpentYet([]);
      case Reset(_) => NothingSpentYet([]);
      case ReplaceCodes(prev, remaining) =>
        var i :| 0 <= i < |prev| && prev[i] == e.note.hash && remaining == RemoveAt(prev, i);
        SpendingKeepsBalance(prev, i, enrolled, uses);
      case _ =>
    }
  }

  /** What the enrolment issued is what the row still lists and what was spent, each exactly once,
      and the row lists it in the order it was issued. */
  lemma {:induction false} CodesConserved(w: World, row0: Row, log: seq<Entry>)
    requires Legal(w, row0, log)
    ensures Balanced(Replay(row0, log).List(), Enrolled(row0, log), Uses(log))
  {
    if log == [] {
      NothingSpentYet(row0.List());
    } else {
      CodesConserved(w, row0, Front(log));
      WriteKeepsBalance(w, row0, Front(log), Last(log), Enrolled(row0, Front(log)), Uses(Front(log)));
    }
  }

  /** No write since k began or ended an enrolment. */
  ghost predicate SameEpoch(log: seq<Entry>, k: nat) {
    forall i :: k <= i < |log| ==> !log[i].stmt.Enable? && !log[i].stmt.Disable? && !log[i].stmt.Reset?
  }

  lemma {:induction false} EpochBeginsAt(row0: Row, log: seq<Entry>, k: nat)
    requires k < |log| && SameEpoch(log, k + 1)
    ensures log[k].stmt.Enable? ==> Enrolled(row0, log) == log[k].stmt.hashes
    ensures log[k].stmt.Enable? ==> Base(row0, log) == log[k].stmt.step && Checked(log) == log[k].note
  {
    if k < |log| - 1 {
      EpochBeginsAt(row0, Front(log), k);
    }
  }

  // ---- one enrolment: its steps ----

  /** The last step as the latest write that set it outright left it. */
  function Base(row0: Row, log: seq<Entry>): int {
    if log == [] then row0.lastStep
    else
      match Last(log).stmt
      case Enable(_, step, _) => step
      case Disable(_) => 0
      case Reset(_) => 0
      case _ => Base(row0, Front(log))
  }

  /** What the write beginning the epoch noted. */
  function Checked(log: seq<Entry>): Note {
    if log == [] then Nothing
    else
      match Last(log).stmt
      case Enable(_, _, _) => Last(log).note
      case Disable(_) => Nothing
      case Reset(_) => Nothing
      case _ => Checked(Front(log))
  }

  /** The steps accepted since. */
  function Steps(log: seq<Entry>): seq<int> {
    if log == [] then []
    else
      match Last(log).stmt
      case Enable(_, _, _) => []
      case Disable(_) => []
      case Reset(_) => []
      case ConsumeStep(step) => Steps(Front(log)) + [step]
      case _ => Steps(Front(log))
  }

  /** The steps increase strictly from base on, and last is the last of them. */
  ghost predicate Ascends(base: int, steps: seq<int>, last: int) {
    && (forall i, j :: 0 <= i < j < |steps| ==> steps[i] < steps[j])
    && (forall k :: 0 <= k < |steps| ==> base < steps[k] <= last)
    && last == (if steps == [] then base else steps[|steps| - 1])
    && |steps| <= last - base
  }

  lemma AcceptingAscends(base: int, steps: seq<int>, last: int, step: int)
    requires Ascends(base, steps, last) && last < step
    ensures Ascends(base, steps + [step], step)
  {
  }

  /** The accepted steps increase strictly, all of them beyond the one the epoch began with, and the
      row holds the last of them. So there are no more of them than steps passed. */
  lemma {:induction false} StepsIncrease(w: World, row0: Row, log: seq<Entry>)
    requires Legal(w, row0, log)
    ensures Ascends(Base(row0, log), Steps(log), Replay(row0, log).lastStep)
  {
    if log != [] {
      var front, e := Front(log), Last(log);
      StepsIncrease(w, row0, front);
      if e.stmt.ConsumeStep? {
        AcceptingAscends(Base(row0, front), Steps(front), Replay(row0, front).lastStep, e.stmt.step);
      }
    }
  }

  /** Within an epoch the recorded step only rises. */
  lemma {:induction false} StepOnlyRises(w: World, row0: Row, log: seq<Entry>, k: nat)
    requires Legal(w, row0, log) && k <= |log| && SameEpoch(log, k)
    ensures RowAt(row0, log, k).lastStep <= Replay(row0, log).lastStep
  {
    if k == |log| {
      assert log[..k] == log;
    } else {
      assert Front(log)[..k] == log[..k];
      assert Last(log) == log[|log| - 1];
      StepOnlyRises(w, row0, Front(log), k);
    }
  }

  /** Of two accepted steps with no enable, disable or reset between them, the later is greater. */
  lemma LaterStepIsGreater(w: World, row0: Row, log: seq<Entry>, i: nat, j: nat)
    requires Legal(w, row0, log) && i < j < |log| && SameEpoch(log[..j], i + 1)
    requires log[i].stmt.ConsumeStep? && log[j].stmt.ConsumeStep?
    ensures log[i].stmt.step < log[j].stmt.step
  {
    LegalPrefix(w, row0, log, i);
    LegalPrefix(w, row0, log, j);
    assert log[..j][..i + 1] == log[..i + 1];
    StepOnlyRises(w, row0, log[..j], i + 1);
  }

  /** While the epoch lasts the row records a step at least as great as the one recorded at i, be it by an
      enable or by a verify. */
  lemma StepStaysRecorded(w: World, row0: Row, log: seq<Entry>, i: nat, k: nat)
    requires Legal(w, row0, log) && i < k <= |log| && SameEpoch(log[..k], i + 1)
    requires log[i].stmt.ConsumeStep? || log[i].stmt.Enable?
    ensures log[i].stmt.step <= RowAt(row0, log, k).lastStep
  {
    hide AdmissibleOn;
    LegalPrefix(w, row0, log, i);
    LegalPrefix(w, row0, log, k);
    assert log[..k][..i + 1] == log[..i + 1];
    StepOnlyRises(w, row0, log[..k], i + 1);
  }

  /** The epoch began below step, and has accepted only lower ones. */
  ghost predicate NotReached(row0: Row, log: seq<Entry>, step: int) {
    Base(row0, log) < step && forall k :: 0 <= k < |Steps(log)| ==> Steps(log)[k] < step
  }

  /** A step can be accepted exactly when the epoch has not reached it. */
  lemma StepAcceptableIff(w: World, row0: Row, log: seq<Entry>, step: int)
    requires Legal(w, row0, log)
    ensures Matches(Replay(row0, log), ConsumeStep(step)) <==> NotReached(row0, log, step)
  {
    hide AdmissibleOn;
    StepsIncrease(w, row0, log);
    var steps := Steps(log);
    assert steps != [] ==> steps[|steps| - 1] == Replay(row0, log).lastStep;
  }

  /** A step once accepted can be accepted again exactly when an enable, disable or reset since left the
      recorded step below it and no step as great was accepted after that. */
  lemma StepAgainIff(w: World, row0: Row, log: seq<Entry>, i: nat)
    requires Legal(w, row0, log) && i < |log| && log[i].stmt.ConsumeStep?
    ensures Matches(Replay(row0, log), log[i].stmt)
       <==> !SameEpoch(log, i + 1) && NotReached(row0, log, log[i].stmt.step)
  {
    hide AdmissibleOn, NotReached;
    StepAcceptableIff(w, row0, log, log[i].stmt.step);
    LegalPrefix(w, row0, log, i);
    if SameEpoch(log, i + 1) {
      StepOnlyRises(w, row0, log, i + 1);
    }
  }

  ghost predicate StepsAtMost(log: seq<Entry>, bound: int) {
    forall k :: 0 <= k < |log| ==> StepAtMost(log[k].stmt, bound)
  }

  predicate StepAtMost(stmt: Statement, bound: int) {
    && (stmt.Enable? ==> stmt.step <= bound)
    && (stmt.ConsumeStep? ==> stmt.step <= bound)
  }

  lemma {:induction false} RecordedAtMost(row0: Row, log: seq<Entry>, bound: int)
    requires StepsAtMost(log, bound) && 0 <= bound
    ensures Replay(row0, log).lastStep <= bound || Replay(row0, log).lastStep == row0.lastStep
  {
    if log != [] {
      assert StepAtMost(log[|log| - 1].stmt, bound);
      RecordedAtMost(row0, Front(log), bound);
    }
  }

  /** From an enable on, whatever was recorded before it. */
  lemma {:induction false} RecordedSinceEnable(row0: Row, log: seq<Entry>, k: nat, bound: int)
    requires k < |log| && log[k].stmt.Enable? && SameEpoch(log, k + 1)
    requires StepsAtMost(log, bound)
    ensures Replay(row0, log).lastStep <= bound
  {
    assert StepAtMost(log[|log| - 1].stmt, bound);
    if k < |log| - 1 {
      RecordedSinceEnable(row0, Front(log), k, bound);
    }
  }

  // ---- the switch ----

  /** An enable landed since k, and nothing began or ended an enrolment after it. */
  ghost predicate EnrolmentStands(log: seq<Entry>, k: nat) {
    exists i :: k <= i < |log| && log[i].stmt.Enable? && SameEpoch(log, i + 1)
  }

  /** A row that was not enabled is so later exactly when an enrolment made in between stands. */
  lemma {:induction false} EnabledIffStands(w: World, row0: Row, log: seq<Entry>, k: nat)
    requires Legal(w, row0, log) && k <= |log| && !RowAt(row0, log, k).enabled
    ensures Replay(row0, log).enabled <==> EnrolmentStands(log, k)
  {
    hide AdmissibleOn;
    if k == |log| {
      assert log[..k] == log;
    } else {
      var front, e := Front(log), Last(log);
      assert front[..k] == log[..k];
      EnabledIffStands(w, row0, front, k);
      StandsAfter(log, k);
    }
  }

  lemma StandsAfter(log: seq<Entry>, k: nat)
    requires k < |log|
    ensures EnrolmentStands(log, k)
       <==> Last(log).stmt.Enable?
            || (EnrolmentStands(Front(log), k) && !Last(log).stmt.Disable? && !Last(log).stmt.Reset?)
  {
    var front, e := Front(log), Last(log);
    assert e == log[|log| - 1];
    if e.stmt.Enable? {
      assert SameEpoch(log, |log| - 1 + 1);
    } else if EnrolmentStands(front, k) && !e.stmt.Disable? && !e.stmt.Reset? {
      var i :| k <= i < |front| && front[i].stmt.Enable? && SameEpoch(front, i + 1);
      assert log[i] == front[i];
      assert SameEpoch(log, i + 1);
    }
    if EnrolmentStands(log, k) && !e.stmt.Enable? {
      var i :| k <= i < |log| && log[i].stmt.Enable? && SameEpoch(log, i + 1);
      assert front[i] == log[i];
      assert SameEpoch(front, i + 1);
    }
  }

  // ---- the life of a secret ----

  lemma {:induction false} RowSecretPlaced(row0: Row, log: seq<Entry>)
    ensures Replay(row0, log).secret in Placed(row0, log) + {""}
  {
    if log != [] {
      RowSecretPlaced(row0, Front(log));
    }
  }

  lemma {:induction false} PlacedGrows(row0: Row, log: seq<Entry>, k: nat)
    requires k <= |log|
    ensures Placed(row0, log[..k]) <= Placed(row0, log)
  {
    if k < |log| {
      PlacedGrows(row0, Front(log), k);
      assert Front(log)[..k] == log[..k];
    } else {
      assert log[..k] == log;
    }
  }

  /** A secret that was placed and is not in the row never comes back. */
  lemma {:induction false} NeverReturns(w: World, row0: Row, log: seq<Entry>, k: nat, secret: string)
    requires Legal(w, row0, log) && k <= |log|
    requires secret != "" && secret in Placed(row0, log[..k])
    requires RowAt(row0, log, k).secret != secret
    ensures Replay(row0, log).secret != secret
  {
    if k == |log| {
      assert log[..k] == log;
    } else {
      var front := Front(log);
      assert front[..k] == log[..k];
      NeverReturns(w, row0, front, k, secret);
      PlacedGrows(row0, front, k);
    }
  }

  /** While its secret stays, an enabled row stays enabled. */
  lemma {:induction false} EnabledStays(w: World, row0: Row, log: seq<Entry>, k: nat)
    requires Legal(w, row0, log) && k <= |log|
    requires RowAt(row0, log, k).enabled && RowAt(row0, log, k).secret != ""
    requires Replay(row0, log).secret == RowAt(row0, log, k).secret
    ensures Replay(row0, log).enabled
  {
    if k == |log| {
      assert log[..k] == log;
    } else {
      var front, secret := Front(log), RowAt(row0, log, k).secret;
      assert front[..k] == log[..k];
      SecretHeld(w, row0, log, k, |log| - 1);
      assert log[..|log| - 1] == front;
      EnabledStays(w, row0, front, k);
    }
  }

  /** A secret that is in the row at two instants was there at every instant between. */
  lemma SecretHeld(w: World, row0: Row, log: seq<Entry>, k: nat, m: nat)
    requires Legal(w, row0, log) && k <= m <= |log|
    requires RowAt(row0, log, k).secret != ""
    requires Replay(row0, log).secret == RowAt(row0, log, k).secret
    ensures RowAt(row0, log, m).secret == RowAt(row0, log, k).secret
  {
    var secret := RowAt(row0, log, k).secret;
    RowSecretPlaced(row0, log[..k]);
    assert log[..m][..k] == log[..k];
    PlacedGrows(row0, log[..m], k);
    if RowAt(row0, log, m).secret != secret {
      NeverReturns(w, row0, log, m, secret);
    }
  }

  /** A write that sets the secret or the switch. */
  predicate TouchesEnrolment(stmt: Statement) {
    stmt.SetPending? || stmt.Enable? || stmt.ClearPending? || stmt.Disable? || stmt.Reset?
  }

  ghost predicate Untouched(log: seq<Entry>, k: nat) {
    forall i :: k <= i < |log| ==> !TouchesEnrolment(log[i].stmt)
  }

  /** The row shows the secret and the switch it showed at k exactly when nothing touched either since:
      a key made of both cannot be met again by a later enrolment. */
  lemma {:induction false} SameEnrolmentIffUntouched(w: World, row0: Row, log: seq<Entry>, k: nat)
    requires Legal(w, row0, log) && k <= |log|
    requires RowAt(row0, log, k).secret != ""
    ensures var was, now := RowAt(row0, log, k), Replay(row0, log);
            (now.secret == was.secret && now.enabled == was.enabled) <==> Untouched(log, k)
  {
    if k == |log| {
      assert log[..k] == log;
    } else {
      var front, e := Front(log), Last(log);
      var was, now := RowAt(row0, log, k), Replay(row0, log);
      assert front[..k] == log[..k];
      SameEnrolmentIffUntouched(w, row0, front, k);
      if now.secret == was.secret && now.enabled == was.enabled {
        SecretHeld(w, row0, log, k, |log| - 1);
        RowSecretPlaced(row0, log[..k]);
        PlacedGrows(row0, front, k);
        if e.stmt.Enable? && was.enabled {
          EnabledStays(w, row0, front, k);
        }
        assert !TouchesEnrolment(e.stmt);
        forall i | k <= i < |log|
          ensures !TouchesEnrolment(log[i].stmt)
        {
          assert i < |front| ==> log[i] == front[i];
        }
      }
      if Untouched(log, k) {
        assert e == log[|log| - 1];
        forall i | k <= i < |front|
          ensures !TouchesEnrolment(front[i].stmt)
        {
          assert log[i] == front[i];
        }
      }
    }
  }

  lemma {:induction false} PlacedEntry(row0: Row, log: seq<Entry>, i: nat)
    requires i < |log| && log[i].stmt.SetPending?
    ensures log[i].stmt.secret in Placed(row0, log)
  {
    if i < |log| - 1 {
      PlacedEntry(row0, Front(log), i);
    }
  }

  /** Over the whole history each secret is placed at most once, enabled at most once and disabled at
      most once. */
  lemma SecretsUsedOnce(w: World, row0: Row, log: seq<Entry>, i: nat, j: nat)
    requires Legal(w, row0, log) && i < j < |log|
    ensures log[i].stmt.SetPending? && log[j].stmt.SetPending? ==> log[i].stmt.secret != log[j].stmt.secret
    ensures log[i].stmt.Enable? && log[j].stmt.Enable? ==> log[i].stmt.secret != log[j].stmt.secret
    ensures log[i].stmt.Disable? && log[j].stmt.Disable? ==> log[i].stmt.secret != log[j].stmt.secret
  {
    LegalPrefix(w, row0, log, i);
    LegalPrefix(w, row0, log, j);
    assert log[..j][..i] == log[..i] && log[..j][..i + 1] == log[..i + 1] && log[..i + 1][..i] == log[..i];
    if log[i].stmt.SetPending? {
      PlacedEntry(row0, log[..j], i);
    } else if log[i].stmt.Enable? && log[j].stmt.Enable? {
      EnabledOnce(w, row0, log[..j], i, log[i].stmt.secret);
    } else if log[i].stmt.Disable? && log[j].stmt.Disable? {
      DisabledOnce(w, row0, log[..j], i, log[i].stmt.secret);
    }
  }

  lemma EnabledOnce(w: World, row0: Row, log: seq<Entry>, i: nat, secret: string)
    requires Legal(w, row0, log) && i < |log| && secret != ""
    requires RowAt(row0, log, i + 1).enabled && RowAt(row0, log, i + 1).secret == secret
    ensures Replay(row0, log).secret == secret ==> Replay(row0, log).enabled
  {
    if Replay(row0, log).secret == secret {
      EnabledStays(w, row0, log, i + 1);
    }
  }

  lemma DisabledOnce(w: World, row0: Row, log: seq<Entry>, i: nat, secret: string)
    requires Legal(w, row0, log) && i < |log| && secret != ""
    requires RowAt(row0, log, i).secret == secret && RowAt(row0, log, i + 1).secret == ""
    ensures Replay(row0, log).secret != secret
  {
    RowSecretPlaced(row0, log[..i]);
    assert log[..i + 1][..i] == log[..i];
    PlacedGrows(row0, log[..i + 1], i);
    NeverReturns(w, row0, log, i + 1, secret);
  }

  // ---- recovery hashes over the whole history ----

  function SpentHashes(log: seq<Entry>): set<string> {
    if log == [] then {}
    else SpentHashes(Front(log))
         + (if Last(log).stmt.ReplaceCodes? && Last(log).note.Spent? then {Last(log).note.hash} else {})
  }

  ghost predicate ListedUnspent(list: seq<string>, issued: set<string>, spent: set<string>) {
    && (forall h :: h in list ==> h in issued && h !in spent)
    && spent <= issued
  }

  lemma SpendingMovesOne(list: seq<string>, i: nat, issued: set<string>, spent: set<string>)
    requires ListedUnspent(list, issued, spent) && Distinct(list) && i < |list|
    ensures ListedUnspent(RemoveAt(list, i), issued, spent + {list[i]})
  {
    RemoveAtContents(list, i);
  }

  lemma IssuingKeepsUnspent(list: seq<string>, hashes: seq<string>, issued: set<string>, spent: set<string>)
    requires ListedUnspent(list, issued, spent) && forall h :: h in hashes ==> h !in issued
    ensures ListedUnspent(hashes, issued + (set h | h in hashes), spent)
  {
  }

  lemma {:induction false} SpentNeverListed(w: World, row0: Row, log: seq<Entry>)
    requires RowOk(row0) && Legal(w, row0, log)
    ensures ListedUnspent(Replay(row0, log).List(), Issued(row0, log), SpentHashes(log))
  {
    if log != [] {
      var front, e := Front(log), Last(log);
      SpentNeverListed(w, row0, front);
      RowAlwaysOk(w, row0, front);
      var list, issued, spent := Replay(row0, front).List(), Issued(row0, front), SpentHashes(front);
      match e.stmt {
        case Enable(_, _, hashes) => IssuingKeepsUnspent(list, hashes, issued, spent);
        case ReplaceCodes(prev, remaining) =>
          var i :| 0 <= i < |prev| && prev[i] == e.note.hash && remaining == RemoveAt(prev, i);
          SpendingMovesOne(prev, i, issued, spent);
        case _ =>
      }
    }
  }

  lemma {:induction false} SpentEntry(log: seq<Entry>, i: nat)
    requires i < |log| && log[i].stmt.ReplaceCodes? && log[i].note.Spent?
    ensures log[i].note.hash in SpentHashes(log)
  {
    if i < |log| - 1 {
      SpentEntry(Front(log), i);
    }
  }

  /** No hash is spent twice, in one enrolment or across any number of them. */
  lemma CodesUsedOnce(w: World, row0: Row, log: seq<Entry>, i: nat, j: nat)
    requires RowOk(row0) && Legal(w, row0, log)
    requires i < j < |log| && log[i].stmt.ReplaceCodes? && log[j].stmt.ReplaceCodes?
    ensures log[i].note.Spent? && log[j].note.Spent? && log[i].note.hash != log[j].note.hash
  {
    RecoveryLandsEnabled(w, row0, log, i);
    RecoveryLandsEnabled(w, row0, log, j);
    LegalPrefix(w, row0, log, j);
    SpentNeverListed(w, row0, log[..j]);
    SpentEntry(log[..j], i);
  }

  lemma {:induction false} IssuedGrows(row0: Row, log: seq<Entry>, k: nat)
    requires k <= |log|
    ensures Issued(row0, log[..k]) <= Issued(row0, log)
  {
    if k < |log| {
      IssuedGrows(row0, Front(log), k);
      assert Front(log)[..k] == log[..k];
    } else {
      assert log[..k] == log;
    }
  }

  /** A hash that was issued and is not listed is never listed again. */
  lemma {:induction false} HashNeverReturns(w: World, row0: Row, log: seq<Entry>, k: nat, hash: string)
    requires Legal(w, row0, log) && k <= |log|
    requires hash in Issued(row0, log[..k]) && hash !in RowAt(row0, log, k).List()
    ensures hash !in Replay(row0, log).List()
  {
    if k == |log| {
      assert log[..k] == log;
    } else {
      var front, e := Front(log), Last(log);
      assert front[..k] == log[..k];
      HashNeverReturns(w, row0, front, k, hash);
      IssuedGrows(row0, front, k);
      if e.stmt.ReplaceCodes? {
        var prev := e.stmt.prev;
        var i :| 0 <= i < |prev| && prev[i] == e.note.hash && e.stmt.remaining == RemoveAt(prev, i);
        RemoveAtContents(prev, i);
      }
    }
  }

  predicate TouchesCodes(stmt: Statement) {
    stmt.ReplaceCodes? || stmt.Enable? || stmt.Disable? || stmt.Reset?
  }

  ghost predicate CodesUntouched(log: seq<Entry>, k: nat) {
    forall i :: k <= i < |log| ==> !TouchesCodes(log[i].stmt)
  }

  /** A write to a list that is not empty takes out a hash the list held, or finds a row whose list is empty. */
  lemma TouchTakesOut(w: World, row0: Row, log: seq<Entry>, e: Entry) returns (hash: string)
    requires RowOk(row0) && Legal(w, row0, log) && Admissible(w, row0, log, e)
    requires TouchesCodes(e.stmt) && Replay(row0, log).List() != []
    ensures hash in Replay(row0, log).List() && hash !in Write(Replay(row0, log), e.stmt).List()
  {
    RowAlwaysOk(w, row0, log);
    hash := Replay(row0, log).List()[0];
    if e.stmt.ReplaceCodes? {
      var i :| 0 <= i < |e.stmt.prev| && e.stmt.prev[i] == e.note.hash && e.stmt.remaining == RemoveAt(e.stmt.prev, i);
      RemoveAtContents(e.stmt.prev, i);
      hash := e.note.hash;
    }
  }

  lemma {:induction false} UntouchedCodesStay(row0: Row, log: seq<Entry>, k: nat)
    requires k <= |log| && CodesUntouched(log, k)
    ensures Replay(row0, log).codes == RowAt(row0, log, k).codes
  {
    if k == |log| {
      assert log[..k] == log;
    } else {
      assert Front(log)[..k] == log[..k];
      assert Last(log) == log[|log| - 1];
      UntouchedCodesStay(row0, Front(log), k);
    }
  }

  /** A list that is not empty reads the same later exactly when nothing wrote the column in between:
      the list itself is a sound key for a compare-and-set. */
  lemma SameCodesIffUntouched(w: World, row0: Row, log: seq<Entry>, k: nat)
    requires RowOk(row0) && Legal(w, row0, log) && k <= |log|
    requires RowAt(row0, log, k).List() != []
    ensures Replay(row0, log).codes == RowAt(row0, log, k).codes <==> CodesUntouched(log, k)
  {
    hide AdmissibleOn, RowOk, Distinct;
    if CodesUntouched(log, k) {
      UntouchedCodesStay(row0, log, k);
    } else {
      var m := FirstTouch(log, k);
      UntouchedCodesStay(row0, log[..m], k);
      assert log[..m][..k] == log[..k];
      LegalPrefix(w, row0, log, m);
      LegalPrefix(w, row0, log, m + 1);
      var hash := TouchTakesOut(w, row0, log[..m], log[m]);
      SpentNeverListed(w, row0, log[..m]);
      IssuedGrows(row0, log[..m + 1], m);
      assert log[..m + 1][..m] == log[..m];
      HashNeverReturns(w, row0, log, m + 1, hash);
    }
  }

  lemma FirstTouch(log: seq<Entry>, k: nat) returns (m: nat)
    requires k <= |log| && !CodesUntouched(log, k)
    ensures k <= m < |log| && TouchesCodes(log[m].stmt) && CodesUntouched(log[..m], k)
  {
    m := k;
    while !TouchesCodes(log[m].stmt)
      invariant k <= m < |log|
      invariant forall i :: k <= i < m ==> !TouchesCodes(log[i].stmt)
      invariant exists i :: m <= i < |log| && TouchesCodes(log[i].stmt)
      decreases |log| - m
    {
      m := m + 1;
    }
  }

  /** A hash nobody spent is still listed while the enrolment stands. */
  lemma {:induction false} UnspentStaysListed(w: World, row0: Row, log: seq<Entry>, k: nat, hash: string)
    requires Legal(w, row0, log) && k <= |log|
    requires hash in RowAt(row0, log, k).List() && SameEpoch(log, k)
    requires forall i :: k <= i < |log| && log[i].stmt.ReplaceCodes? ==> log[i].note != Spent(hash)
    ensures hash in Replay(row0, log).List()
  {
    if k == |log| {
      assert log[..k] == log;
    } else {
      var front, e := Front(log), Last(log);
      assert front[..k] == log[..k];
      assert e == log[|log| - 1];
      UnspentStaysListed(w, row0, front, k, hash);
      if e.stmt.ReplaceCodes? {
        var prev := e.stmt.prev;
        var i :| 0 <= i < |prev| && prev[i] == e.note.hash && e.stmt.remaining == RemoveAt(prev, i);
        RemoveAtContents(prev, i);
      }
    }
  }

  // ---- the password ----

  /** The password of the latest register, change or reset. */
  function LatestPassword(first: string, log: seq<Entry>): string {
    if log == [] then first else LatestAfter(LatestPassword(first, Front(log)), Last(log))
  }

  /** Of the passwords in play the stored hash verifies the latest one and no other, whatever stale
      sign-ins and changes came in between. */
  lemma {:induction false} StoredVerifiesLatest(w: World, row0: Row, first: string, log: seq<Entry>, candidate: string)
    requires LawfulWorld(w) && Legal(w, row0, log)
    requires first in w.passwords && VerifyPassword(w.pw, row0.password, first)
    requires candidate in w.passwords
    ensures VerifyPassword(w.pw, Replay(row0, log).password, candidate) <==> candidate == LatestPassword(first, log)
  {
    StoredVerifies(w, row0, first, log);
  }

  function LatestAfter(latest: string, e: Entry): string {
    if (e.stmt.UpdatePassword? || e.stmt.Reset?) && e.note.Typed? then e.note.password else latest
  }

  lemma WriteKeepsLatest(w: World, row0: Row, log: seq<Entry>, e: Entry, latest: string)
    requires LawfulWorld(w) && Admissible(w, row0, log, e)
    requires latest in w.passwords && VerifyPassword(w.pw, Replay(row0, log).password, latest)
    ensures LatestAfter(latest, e) in w.passwords
    ensures VerifyPassword(w.pw, Write(Replay(row0, log), e.stmt).password, LatestAfter(latest, e))
  {
  }

  lemma {:induction false} StoredVerifies(w: World, row0: Row, first: string, log: seq<Entry>)
    requires LawfulWorld(w) && Legal(w, row0, log)
    requires first in w.passwords && VerifyPassword(w.pw, row0.password, first)
    ensures LatestPassword(first, log) in w.passwords
    ensures VerifyPassword(w.pw, Replay(row0, log).password, LatestPassword(first, log))
  {
    if log != [] {
      StoredVerifies(w, row0, first, Front(log));
      WriteKeepsLatest(w, row0, Front(log), Last(log), LatestPassword(first, Front(log)));
    }
  }

  predicate WritesPassword(stmt: Statement) {
    stmt.ReplacePassword? || stmt.UpdatePassword? || stmt.Reset?
  }

  lemma PasswordWriteIsFresh(w: World, row: Row, placed: set<string>, issued: set<string>, e: Entry)
    requires AdmissibleOn(w, row, placed, issued, e)
    ensures WritesPassword(e.stmt) ==> !NeedsRehash(w.pw, Write(row, e.stmt).password)
    ensures !WritesPassword(e.stmt) ==> Write(row, e.stmt).password == row.password
  {
  }

  /** Once any password write landed the stored hash needs no rehash, ever after. */
  lemma {:induction false} NoRehashAfterWrite(w: World, row0: Row, log: seq<Entry>, i: nat)
    requires Legal(w, row0, log)
    requires i < |log| && WritesPassword(log[i].stmt)
    ensures !NeedsRehash(w.pw, Replay(row0, log).password)
  {
    PasswordWriteIsFresh(w, Replay(row0, Front(log)), Placed(row0, Front(log)), Issued(row0, Front(log)), Last(log));
    if i < |log| - 1 {
      NoRehashAfterWrite(w, row0, Front(log), i);
    }
  }

  /** So a sign-in swaps the hash at most once in the whole history, and never after a change. */
  lemma SwapAtMostOnce(w: World, row0: Row, log: seq<Entry>, i: nat, j: nat)
    requires Legal(w, row0, log)
    requires i < j < |log| && WritesPassword(log[i].stmt)
    ensures !log[j].stmt.ReplacePassword?
  {
    LegalPrefix(w, row0, log, j);
    NoRehashAfterWrite(w, row0, log[..j], i);
  }
}
