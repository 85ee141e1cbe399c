/** The two-slot gate in front of argon2 (argonSlots and idKey of password.go), under any number of
    concurrent calls and any schedule. */
module Gate {
  import opened Prelude
  import opened Password
  import opened Text

  const SLOTS: nat := 2

  /** What a call was made for: storing a password, or checking one against a stored hash. */
  datatype Request = Hash | Verify(stored: string)

  datatype Call = Waiting(memory: nat) | Running(memory: nat) | Finished

  datatype State = State(taken: nat, calls: seq<Call>)

  datatype Action = Arrive(request: Request) | Acquire(id: nat) | Release(id: nat)

  /** The derivation a request needs, with the memory it asks for; the legacy digest needs none. */
  function Entering(p: Primitives, request: Request): Call {
    match request
    case Hash => Waiting(ARGON_MEMORY)
    case Verify(stored) =>
      match ParseArgon(p, stored)
      case Some(h) => Waiting(h.memory)
      case None => Finished
  }

  /** What a call asks of the gate: 19 MiB to store a password, what the stored hash says to check one, and
      nothing at all for a legacy digest. */
  lemma EntersWith(p: Primitives, stored: string, h: ArgonHash, saltText: string, keyText: string)
    requires ReadsBack(p)
    ensures Entering(p, Hash) == Waiting(19456)
    ensures InBounds(h) && Spells(stored, h, saltText, keyText) ==> Entering(p, Verify(stored)) == Waiting(h.memory)
    ensures Lawful(p) ==> forall password :: Entering(p, Verify(p.md5(password))) == Finished
  {
    if InBounds(h) && Spells(stored, h, saltText, keyText) {
      SpelledIsAccepted(p, stored, h, saltText, keyText);
    }
    forall password | Lawful(p)
      ensures Entering(p, Verify(p.md5(password))) == Finished
    {
      SplitPlain(p.md5(password), '$');
    }
  }

  /** A send on the full channel blocks; a receive takes back the slot of the deferring call. */
  predicate Enabled(s: State, a: Action) {
    match a
    case Arrive(_) => true
    case Acquire(i) => i < |s.calls| && s.calls[i].Waiting? && s.taken < SLOTS
    case Release(i) => i < |s.calls| && s.calls[i].Running? && s.taken > 0
  }

  function Next(p: Primitives, s: State, a: Action): State
    requires Enabled(s, a)
  {
    match a
    case Arrive(request) => State(s.taken, s.calls + [Entering(p, request)])
    case Acquire(i) => State(s.taken + 1, s.calls[i := Running(s.calls[i].memory)])
    case Release(i) => State(s.taken - 1, s.calls[i := Finished])
  }

  predicate ValidRun(p: Primitives, s: State, run: seq<Action>)
    decreases |run|
  {
    run == [] || (Enabled(s, run[0]) && ValidRun(p, Next(p, s, run[0]), run[1..]))
  }

  function After(p: Primitives, s: State, run: seq<Action>): State
    requires ValidRun(p, s, run)
    decreases |run|
  {
    if run == [] then s else After(p, Next(p, s, run[0]), run[1..])
  }

  const EMPTY := State(0, [])

  // ---- what is counted ----

  function Sum(calls: seq<Call>, weight: Call -> nat): nat {
    if calls == [] then 0 else weight(calls[0]) + Sum(calls[1..], weight)
  }

  function IsRunning(c: Call): nat { if c.Running? then 1 else 0 }
  function MemoryOf(c: Call): nat { if c.Running? then c.memory else 0 }
  function StepsLeft(c: Call): nat { if c.Waiting? then 2 else if c.Running? then 1 else 0 }

  lemma {:induction false} SumUpdate(calls: seq<Call>, weight: Call -> nat, i: nat, c: Call)
    requires i < |calls|
    ensures Sum(calls[i := c], weight) == Sum(calls, weight) - weight(calls[i]) + weight(c)
  {
    if i == 0 {
      assert calls[i := c][1..] == calls[1..];
    } else {
      SumUpdate(calls[1..], weight, i - 1, c);
      assert calls[i := c][1..] == calls[1..][i - 1 := c];
    }
  }

  lemma {:induction false} SumAppend(calls: seq<Call>, weight: Call -> nat, c: Call)
    ensures Sum(calls + [c], weight) == Sum(calls, weight) + weight(c)
  {
    if calls == [] {
      assert calls + [c] == [c];
      assert [c][1..] == [];
    } else {
      SumAppend(calls[1..], weight, c);
      assert (calls + [c])[1..] == calls[1..] + [c];
    }
  }

  ghost predicate Inv(s: State) {
    && s.taken == Sum(s.calls, IsRunning) <= SLOTS
    && (forall i :: 0 <= i < |s.calls| && !s.calls[i].Finished? ==> s.calls[i].memory <= ARGON_MAX_MEMORY)
  }

  lemma NextKeepsInv(p: Primitives, s: State, a: Action)
    requires Inv(s) && Enabled(s, a)
    ensures Inv(Next(p, s, a))
    ensures !a.Arrive? ==> Sum(Next(p, s, a).calls, StepsLeft) == Sum(s.calls, StepsLeft) - 1
  {
    match a
    case Arrive(request) =>
      SumAppend(s.calls, IsRunning, Entering(p, request));
      if request.Verify? && ParseArgon(p, request.stored).Some? {
        DerivationIsBounded(p, request.stored);
      }
    case Acquire(i) =>
      SumUpdate(s.calls, IsRunning, i, Running(s.calls[i].memory));
      SumUpdate(s.calls, StepsLeft, i, Running(s.calls[i].memory));
    case Release(i) =>
      SumUpdate(s.calls, IsRunning, i, Finished);
      SumUpdate(s.calls, StepsLeft, i, Finished);
  }

  lemma {:induction false} RunKeepsInv(p: Primitives, s: State, run: seq<Action>)
    requires Inv(s) && ValidRun(p, s, run)
    ensures Inv(After(p, s, run))
    decreases |run|
  {
    if run != [] {
      NextKeepsInv(p, s, run[0]);
      RunKeepsInv(p, Next(p, s, run[0]), run[1..]);
    }
  }

  lemma {:induction false} MemoryBound(calls: seq<Call>)
    requires forall i :: 0 <= i < |calls| && !calls[i].Finished? ==> calls[i].memory <= ARGON_MAX_MEMORY
    ensures Sum(calls, MemoryOf) <= ARGON_MAX_MEMORY * Sum(calls, IsRunning)
  {
    if calls != [] {
      MemoryBound(calls[1..]);
    }
  }

  /** In every reachable state the running calls hold exactly the taken slots, at most two, and the
      memory in flight is at most twice 256 MiB. */
  lemma GateBounds(p: Primitives, run: seq<Action>)
    requires ValidRun(p, EMPTY, run)
    ensures var s := After(p, EMPTY, run);
            && Sum(s.calls, IsRunning) + (SLOTS - s.taken) == SLOTS
            && s.taken <= SLOTS
            && Sum(s.calls, MemoryOf) <= 2 * 256 * 1024
  {
    RunKeepsInv(p, EMPTY, run);
    MemoryBound(After(p, EMPTY, run).calls);
  }

  // ---- no call blocks forever ----

  lemma {:induction false} SumWitness(calls: seq<Call>, weight: Call -> nat) returns (i: nat)
    requires Sum(calls, weight) > 0
    ensures i < |calls| && weight(calls[i]) > 0
  {
    if weight(calls[0]) > 0 {
      i := 0;
    } else {
      i := SumWitness(calls[1..], weight);
      i := i + 1;
    }
  }

  lemma {:induction false} SumZero(calls: seq<Call>)
    ensures Sum(calls, StepsLeft) == 0 <==> forall i :: 0 <= i < |calls| ==> calls[i].Finished?
  {
    if calls != [] {
      SumZero(calls[1..]);
      assert calls == [calls[0]] + calls[1..];
    }
  }

  /** While some call is unfinished, some waiting call can take a slot or some running call gives one back. */
  lemma NeverStuck(p: Primitives, s: State) returns (a: Action)
    requires Inv(s) && Sum(s.calls, StepsLeft) > 0
    ensures !a.Arrive? && Enabled(s, a)
  {
    if s.taken > 0 {
      var i := SumWitness(s.calls, IsRunning);
      a := Release(i);
    } else {
      var i := SumWitness(s.calls, StepsLeft);
      SumUpdate(s.calls, IsRunning, i, Finished);
      a := Acquire(i);
    }
  }

  lemma {:induction false} RunCountsDown(p: Primitives, s: State, run: seq<Action>)
    requires Inv(s) && ValidRun(p, s, run)
    requires forall k :: 0 <= k < |run| ==> !run[k].Arrive?
    ensures |run| + Sum(After(p, s, run).calls, StepsLeft) == Sum(s.calls, StepsLeft)
    decreases |run|
  {
    if run != [] {
      NextKeepsInv(p, s, run[0]);
      RunCountsDown(p, Next(p, s, run[0]), run[1..]);
    }
  }

  /** From any reachable state, once no further call arrives: whatever the schedule, a run that cannot
      be continued has finished every call and given back both slots. No run is longer than two
      steps a call. */
  lemma EveryCallFinishes(p: Primitives, before: seq<Action>, run: seq<Action>)
    requires ValidRun(p, EMPTY, before)
    requires var s := After(p, EMPTY, before); ValidRun(p, s, run)
    requires forall k :: 0 <= k < |run| ==> !run[k].Arrive?
    ensures var s := After(p, EMPTY, before); var t := After(p, s, run);
            && |run| <= Sum(s.calls, StepsLeft)
            && ((forall a: Action :: Enabled(t, a) ==> a.Arrive?)
                  ==> t.taken == 0 && |t.calls| == |s.calls|
                      && forall i :: 0 <= i < |t.calls| ==> t.calls[i].Finished?)
  {
    var s := After(p, EMPTY, before);
    RunKeepsInv(p, EMPTY, before);
    RunCountsDown(p, s, run);
    RunKeepsInv(p, s, run);
    RunKeepsCalls(p, s, run);
    var t := After(p, s, run);
    if forall a: Action :: Enabled(t, a) ==> a.Arrive? {
      if Sum(t.calls, StepsLeft) > 0 {
        var a := NeverStuck(p, t);
        assert false;
      }
      SumZero(t.calls);
      if t.taken > 0 {
        var i := SumWitness(t.calls, IsRunning);
        assert false;
      }
    }
  }

  lemma {:induction false} RunKeepsCalls(p: Primitives, s: State, run: seq<Action>)
    requires ValidRun(p, s, run)
    requires forall k :: 0 <= k < |run| ==> !run[k].Arrive?
    ensures |After(p, s, run).calls| == |s.calls|
    decreases |run|
  {
    if run != [] {
      RunKeepsCalls(p, Next(p, s, run[0]), run[1..]);
    }
  }

  // ---- first in, first out: arrivals that go on do not overtake ----

  /** Blocked senders of a channel are served in the order they came. */
  predicate InOrder(s: State, a: Action) {
    a.Acquire? ==> forall j :: 0 <= j < a.id && j < |s.calls| ==> !s.calls[j].Waiting?
  }

  /** A run that keeps to that order. */
  ghost predicate ValidQueue(p: Primitives, s: State, run: seq<Action>): (valid: bool)
    ensures valid ==> ValidRun(p, s, run)
    decreases |run|
  {
    run == [] || (Enabled(s, run[0]) && InOrder(s, run[0]) && ValidQueue(p, Next(p, s, run[0]), run[1..]))
  }

  /** No call behind a waiting one is running. */
  ghost predicate Ordered(s: State) {
    forall j, k :: 0 <= j < k < |s.calls| && s.calls[j].Waiting? ==> !s.calls[k].Running?
  }

  lemma {:induction false} QueueKeepsOrder(p: Primitives, s: State, run: seq<Action>)
    requires Ordered(s) && ValidQueue(p, s, run)
    ensures Ordered(After(p, s, run))
    decreases |run|
  {
    if run != [] {
      QueueKeepsOrder(p, Next(p, s, run[0]), run[1..]);
    }
  }

  lemma {:induction false} WaitingSinceArrival(p: Primitives, s: State, run: seq<Action>, i: nat)
    requires ValidRun(p, s, run) && i < |s.calls|
    ensures i < |After(p, s, run).calls|
    ensures After(p, s, run).calls[i].Waiting? ==> s.calls[i].Waiting?
    decreases |run|
  {
    if run != [] {
      WaitingSinceArrival(p, Next(p, s, run[0]), run[1..], i);
    }
  }

  /** The slots taken and given back. */
  function Served(run: seq<Action>): nat {
    if run == [] then 0 else (if run[0].Arrive? then 0 else 1) + Served(run[1..])
  }

  /** What the calls in front of i have left to do. */
  function Ahead(s: State, i: nat): nat
    requires i <= |s.calls|
  {
    Sum(s.calls[..i], StepsLeft)
  }

  lemma ServesAhead(p: Primitives, s: State, a: Action, i: nat)
    requires Ordered(s) && Enabled(s, a) && InOrder(s, a)
    requires i < |s.calls| && s.calls[i].Waiting? && Next(p, s, a).calls[i].Waiting?
    ensures Ahead(Next(p, s, a), i) + (if a.Arrive? then 0 else 1) == Ahead(s, i)
    ensures forall k :: i <= k < |s.calls| ==> Next(p, s, a).calls[k] == s.calls[k]
  {
    var t := Next(p, s, a);
    if a.Arrive? {
      assert t.calls[..i] == s.calls[..i];
    } else {
      assert a.id < i;
      assert t.calls[..i] == s.calls[..i][a.id := t.calls[a.id]];
      SumUpdate(s.calls[..i], StepsLeft, a.id, t.calls[a.id]);
    }
  }

  lemma {:induction false} EachStepServesAhead(p: Primitives, s: State, run: seq<Action>, i: nat)
    requires Ordered(s) && ValidQueue(p, s, run)
    requires i < |s.calls| && i < |After(p, s, run).calls| && After(p, s, run).calls[i].Waiting?
    ensures Served(run) + Ahead(After(p, s, run), i) == Ahead(s, i)
    ensures |After(p, s, run).calls| >= |s.calls|
    ensures forall k :: i <= k < |s.calls| ==> After(p, s, run).calls[k] == s.calls[k]
    decreases |run|
  {
    if run != [] {
      var t := Next(p, s, run[0]);
      WaitingSinceArrival(p, s, run, i);
      WaitingSinceArrival(p, t, run[1..], i);
      ServesAhead(p, s, run[0], i);
      EachStepServesAhead(p, t, run[1..], i);
    }
  }

  lemma HeadIsServed(p: Primitives, s: State, i: nat) returns (a: Action)
    requires Inv(s) && i < |s.calls| && s.calls[i].Waiting?
    ensures !a.Arrive? && Enabled(s, a) && InOrder(s, a)
  {
    if s.taken > 0 {
      var k := SumWitness(s.calls, IsRunning);
      a := Release(k);
    } else {
      var k := 0;
      while !s.calls[k].Waiting?
        invariant k <= i && forall j :: 0 <= j < k ==> !s.calls[j].Waiting?
        decreases i - k
      {
        k := k + 1;
      }
      a := Acquire(k);
    }
  }

  /** However many calls go on arriving: a waiting call is overtaken by none, the gate takes and gives
      back slots only for the calls in front of it, so no more often than those have steps left, and
      until its turn comes some such step can be taken. */
  lemma NoCallStarves(p: Primitives, before: seq<Action>, run: seq<Action>, i: nat) returns (a: Action)
    requires ValidQueue(p, EMPTY, before)
    requires var s := After(p, EMPTY, before);
             && ValidQueue(p, s, run)
             && i < |s.calls| && i < |After(p, s, run).calls| && After(p, s, run).calls[i].Waiting?
    ensures var s := After(p, EMPTY, before); var t := After(p, s, run);
            && Served(run) == Ahead(s, i) - Ahead(t, i)
            && |t.calls| >= |s.calls|
            && (forall k :: i <= k < |s.calls| ==> t.calls[k] == s.calls[k])
            && (forall k :: i < k < |t.calls| ==> !t.calls[k].Running?)
            && !a.Arrive? && Enabled(t, a) && InOrder(t, a)
  {
    var s := After(p, EMPTY, before);
    var t := After(p, s, run);
    QueueKeepsOrder(p, EMPTY, before);
    RunKeepsInv(p, EMPTY, before);
    EachStepServesAhead(p, s, run, i);
    QueueKeepsOrder(p, s, run);
    RunKeepsInv(p, s, run);
    a := HeadIsServed(p, t, i);
  }

  // ---- the channel itself ----

  lemma {:induction false} RunningCounts(calls: seq<Call>, i: nat)
    requires i < |calls| && calls[i].Running?
    ensures Sum(calls, IsRunning) >= 1
  {
    if i > 0 {
      RunningCounts(calls[1..], i - 1);
    }
  }

  /** A call arrives, and after these steps of the others it is first in the queue with a slot free. */
  ghost predicate TurnComes(p: Primitives, s: State, request: Request, until: seq<Action>) {
    var entered, id := Next(p, s, Arrive(request)), |s.calls|;
    ValidQueue(p, entered, until)
    && var t := After(p, entered, until);
       id < |t.calls| && t.calls[id].Waiting? && InOrder(t, Acquire(id)) && t.taken < SLOTS
  }

  /** Sends and receives change one counter, and each call its own entry. Valid() is the invariant of the
      gate, and every method keeps it. */
  class ArgonSlots {
    var taken: nat
    var calls: seq<Call>

    ghost function View(): State
      reads this
    {
      State(taken, calls)
    }

    ghost predicate Valid()
      reads this
    {
      Inv(View()) && Ordered(View())
    }

    ghost function Running(): nat
      reads this
    {
      Sum(calls, IsRunning)
    }

    ghost function MemoryInFlight(): nat
      reads this
    {
      Sum(calls, MemoryOf)
    }

    constructor ()
      ensures Valid() && Running() == 0 && calls == []
    {
      taken, calls := 0, [];
    }

    /** Whatever was done so far, at most two derivations run and they hold at most 512 MiB. */
    lemma Bounded()
      requires Valid()
      ensures Running() <= 2 && MemoryInFlight() <= 2 * 256 * 1024
    {
      MemoryBound(calls);
    }

    method Enter(p: Primitives, request: Request) returns (id: nat)
      requires Valid()
      modifies this
      ensures Valid() && Running() == old(Running())
      ensures id == old(|calls|) && View() == Next(p, old(View()), Arrive(request))
    {
      id := |calls|;
      NextKeepsInv(p, View(), Arrive(request));
      SumAppend(calls, IsRunning, Entering(p, request));
      calls := calls + [Entering(p, request)];
    }

    /** The send, when its turn has come: it goes through exactly when fewer than two derivations run, and
        then one more runs; otherwise both slots are held by running ones and nothing changes. */
    method TryAcquire(p: Primitives, id: nat) returns (ok: bool)
      requires Valid() && id < |calls| && calls[id].Waiting? && InOrder(View(), Acquire(id))
      modifies this
      ensures Valid() && Running() <= 2 && MemoryInFlight() <= 2 * 256 * 1024
      ensures taken == old(taken) + (if ok then 1 else 0)
      ensures |calls| == old(|calls|) && forall k :: 0 <= k < |calls| && k != id ==> calls[k] == old(calls)[k]
      ensures ok <==> old(Running()) < 2
      ensures ok ==> Running() == old(Running()) + 1 && calls[id] == Call.Running(old(calls[id].memory))
      ensures ok ==> MemoryInFlight() == old(MemoryInFlight()) + old(calls[id].memory)
      ensures !ok ==> old(Running()) == 2 && View() == old(View())
    {
      ok := taken < SLOTS;
      if ok {
        var running := Call.Running(calls[id].memory);
        NextKeepsInv(p, View(), Acquire(id));
        SumUpdate(calls, IsRunning, id, running);
        SumUpdate(calls, MemoryOf, id, running);
        taken := taken + 1;
        calls := calls[id := running];
      }
      Bounded();
    }

    /** The deferred receive: every running call holds a slot to give back, and with it gone the call at
        the head of the queue can go on. */
    method Leave(p: Primitives, id: nat)
      requires Valid() && id < |calls| && calls[id].Running?
      modifies this
      ensures |calls| == old(|calls|) && forall k :: 0 <= k < |calls| && k != id ==> calls[k] == old(calls)[k]
      ensures Valid() && Running() == old(Running()) - 1 && calls[id].Finished?
      ensures taken == old(taken) - 1
      ensures MemoryInFlight() == old(MemoryInFlight()) - old(calls[id].memory)
      ensures forall k :: 0 <= k < |calls| && calls[k].Waiting? ==> Enabled(View(), Acquire(k))
    {
      RunningCounts(calls, id);
      NextKeepsInv(p, View(), Release(id));
      SumUpdate(calls, IsRunning, id, Finished);
      SumUpdate(calls, MemoryOf, id, Finished);
      taken := taken - 1;
      calls := calls[id := Finished];
    }

    /** One step of some call. */
    method Step(p: Primitives, a: Action)
      requires Valid() && Enabled(View(), a) && InOrder(View(), a)
      modifies this
      ensures Valid() && View() == Next(p, old(View()), a)
    {
      match a
      case Arrive(request) => var _ := Enter(p, request);
      case Acquire(id) =>
        SlotIsFree();
        var _ := TryAcquire(p, id);
      case Release(id) => Leave(p, id);
    }

    lemma SlotIsFree()
      requires Valid()
      ensures taken == Running()
    {
    }

    /** idKey whole, from its arrival at a gate in any state; until its turn comes other calls take their
        steps and new ones arrive. No more of those steps than the calls found there had left, and the call
        leaves the gate as full as they left it. */
    method IdKey(p: Primitives, request: Request, until: seq<Action>, password: string, salt: seq<Byte>,
                 time: nat, memory: nat, threads: nat, keyLen: nat)
      returns (key: seq<Byte>)
      requires Valid() && Entering(p, request) == Waiting(memory) && TurnComes(p, View(), request, until)
      modifies this
      ensures Valid() && Served(until) <= Sum(old(calls), StepsLeft)
      ensures var t := After(p, Next(p, old(View()), Arrive(request)), until);
              && Running() == Sum(t.calls, IsRunning)
              && |t.calls| > old(|calls|) && calls == t.calls[old(|calls|) := Finished]
      ensures key == p.idKey(password, salt, time, memory, threads, keyLen)
    {
      ghost var found := calls;
      var id := Enter(p, request);
      ghost var entered := View();
      var i := 0;
      while i < |until|
        invariant i <= |until| && Valid()
        invariant ValidQueue(p, View(), until[i..]) && After(p, View(), until[i..]) == After(p, entered, until)
      {
        assert until[i..][0] == until[i] && until[i..][1..] == until[i + 1..];
        Step(p, until[i]);
        i := i + 1;
      }
      assert View() == After(p, entered, until);
      EachStepServesAhead(p, entered, until, id);
      assert entered.calls[..id] == found;
      var _ := TryAcquire(p, id);
      key := p.idKey(password, salt, time, memory, threads, keyLen);
      Leave(p, id);
    }
  }
}
