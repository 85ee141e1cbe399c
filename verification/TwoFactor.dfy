/** The two-factor protocol as one atomic machine, and the simulation of every legal history by it. */
module TwoFactor {
  import opened Prelude
  import opened World
  import opened Rows
  import opened History

  datatype Phase = Off | Pending(secret: string) | On(secret: string, last: int, codes: seq<string>)

  datatype Event =
    | Setup(secret: string)
    | TurnOn(secret: string, step: int, codes: seq<string>)
    | Forget(secret: string)
    | TurnOff(secret: string)
    | AcceptStep(step: int)
    | LateStep
    | SpendCode(code: string)
    | Clear
    | PasswordOnly

  function Without(codes: seq<string>, code: string): seq<string> {
    if codes == [] then []
    else if codes[0] == code then codes[1..]
    else [codes[0]] + Without(codes[1..], code)
  }

  /** The transition an event takes, where it may happen at all. */
  function Move(p: Phase, ev: Event): Option<Phase> {
    match ev
    case Setup(secret) => if p.On? || secret == "" then None else Some(Pending(secret))
    case TurnOn(secret, step, codes) =>
      if p == Pending(secret) && step >= 1 && |codes| == 8 then Some(On(secret, step, codes)) else None
    case Forget(secret) => if p == Pending(secret) then Some(Off) else None
    case TurnOff(secret) => if p.On? && p.secret == secret then Some(Off) else None
    case AcceptStep(step) => if p.On? && p.last < step then Some(On(p.secret, step, p.codes)) else None
    case LateStep => if p.On? then None else Some(p)
    case SpendCode(code) =>
      if p.On? && code in p.codes then Some(On(p.secret, p.last, Without(p.codes, code))) else None
    case Clear => Some(Off)
    case PasswordOnly => Some(p)
  }

  function Moves(p: Phase, events: seq<Event>): Option<Phase> {
    if events == [] then Some(p)
    else
      match Moves(p, events[..|events| - 1])
      case None => None
      case Some(q) => Move(q, events[|events| - 1])
  }

  /** What the row means. The last step of a row that is not enabled means nothing. */
  function Meaning(row: Row): Phase {
    if row.enabled then On(row.secret, row.lastStep, row.List())
    else if row.secret != "" then Pending(row.secret)
    else Off
  }

  /** What a write means on the row it found. */
  function EventOf(row: Row, e: Entry): Event {
    match e.stmt
    case SetPending(secret) => Setup(secret)
    case Enable(secret, step, hashes) => TurnOn(secret, step, hashes)
    case ClearPending(secret) => Forget(secret)
    case Disable(secret) => TurnOff(secret)
    case ConsumeStep(step) => if row.enabled then AcceptStep(step) else LateStep
    case ReplaceCodes(_, _) => SpendCode(if e.note.Spent? then e.note.hash else "")
    case Reset(_) => Clear
    case _ => PasswordOnly
  }

  function Events(row0: Row, log: seq<Entry>): seq<Event> {
    if log == [] then [] else Events(row0, Front(log)) + [EventOf(Replay(row0, Front(log)), Last(log))]
  }

  lemma {:induction false} WithoutIsRemoveAt(codes: seq<string>, i: nat)
    requires Distinct(codes) && i < |codes|
    ensures Without(codes, codes[i]) == RemoveAt(codes, i)
  {
    if i > 0 {
      WithoutIsRemoveAt(codes[1..], i - 1);
      assert codes[0] != codes[i];
      assert RemoveAt(codes, i) == [codes[0]] + RemoveAt(codes[1..], i - 1);
    }
  }

  lemma SpendingMoves(w: World, row: Row, placed: set<string>, issued: set<string>, e: Entry)
    requires RowOk(row) && AdmissibleOn(w, row, placed, issued, e) && e.stmt.ReplaceCodes?
    ensures Move(Meaning(row), EventOf(row, e)) == Some(Meaning(Write(row, e.stmt)))
  {
    var prev := e.stmt.prev;
    var i :| 0 <= i < |prev| && prev[i] == e.note.hash && e.stmt.remaining == RemoveAt(prev, i);
    WithoutIsRemoveAt(prev, i);
  }

  lemma OneWriteOneMove(w: World, row: Row, placed: set<string>, issued: set<string>, e: Entry)
    requires RowOk(row) && AdmissibleOn(w, row, placed, issued, e)
    ensures Move(Meaning(row), EventOf(row, e)) == Some(Meaning(Write(row, e.stmt)))
  {
    if e.stmt.ReplaceCodes? {
      SpendingMoves(w, row, placed, issued, e);
    }
  }

  lemma OneMoreMove(p: Phase, events: seq<Event>, q: Phase, ev: Event)
    requires Moves(p, events) == Some(q)
    ensures Moves(p, events + [ev]) == Move(q, ev)
  {
    assert (events + [ev])[..|events|] == events;
  }

  /** Every legal history is a run of the machine, from what the row meant to what it means: each
      write took exactly its one transition, where the machine allows it. */
  lemma {:induction false} HistorySimulates(w: World, row0: Row, log: seq<Entry>)
    requires RowOk(row0) && Legal(w, row0, log)
    ensures |Events(row0, log)| == |log|
    ensures Moves(Meaning(row0), Events(row0, log)) == Some(Meaning(Replay(row0, log)))
  {
    if log != [] {
      var front, e := Front(log), Last(log);
      var row := Replay(row0, front);
      HistorySimulates(w, row0, front);
      RowAlwaysOk(w, row0, front);
      OneWriteOneMove(w, row, Placed(row0, front), Issued(row0, front), e);
      OneMoreMove(Meaning(row0), Events(row0, front), Meaning(row), EventOf(row, e));
    }
  }
}
