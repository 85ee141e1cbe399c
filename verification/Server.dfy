/** Any number of handlers at once on one user's row, with the clocks, the user's token bucket, the
    tokens in circulation and the shell command that resets the account. */
module Server {
  import opened Prelude
  import opened World
  import opened Password
  import opened Rows
  import opened Recovery
  import opened Limiter
  import opened History
  import opened Handlers

  /** A handler, and where in the history it stood: when it arrived, at its first read, at its attempt to
      clear a pending secret, at the read its answer rests on, after its latest step; and the wall clock
      when it began, last compared a code with it, and last moved. */
  datatype Flight = Flight(
    request: Request, thread: Thread,
    faulted: bool,   // a read or write of its own failed
    failed: bool,    // the statement of its latest step failed
    unread: bool,    // a read of the row that it goes by failed
    broken: bool,    // at its latest step a generator or a signature failed
    known: nat,      // tokens in circulation when it arrived
    startedAt: int, checkedAt: int, endedAt: int,
    arrived: nat, first: nat, tried: nat, last: nat, end: nat)

  datatype Minted = Minted(token: Token, origin: nat)

  datatype State = State(
    row: Row,
    flights: seq<Flight>,
    wall: int,              // the wall clock, in seconds
    mono: real,             // the monotonic clock, in seconds
    bucket: Bucket,
    admitted: seq<real>, admittedFor: seq<nat>,
    tokens: seq<Minted>,
    secrets: set<string>,   // every secret generated, and the one found in the row
    hashes: set<string>,    // every recovery hash generated, and those found in the row
    log: seq<Entry>)

  datatype Action =
    | Arrive(request: Request)
    | Proceed(id: nat, inp: Input)
    | Tick(wall: int, elapsed: real)
    | ResetByShell(password: string, salt: seq<Byte>)

  function Initial(row0: Row, wall: int, mono: real): State {
    State(row0, [], wall, mono, Full(mono), [], [], [], {row0.secret}, set h | h in row0.List(), [])
  }

  /** A field left out reads as the empty text. */
  predicate Typable(w: World, password: string) {
    password == "" || password in w.passwords
  }

  predicate RequestOk(w: World, request: Request) {
    match request
    case LoginRequest(password) => Typable(w, password)
    case SetupRequest(password) => Typable(w, password)
    case DisableRequest(_, password) => Typable(w, password)
    case PasswordRequest(oldPassword, newPassword) => Typable(w, oldPassword) && Typable(w, newPassword)
    case _ => true
  }

  /** Nobody else can sign with this service's keys. */
  ghost predicate Presentable(tokens: seq<Minted>, t: Token) {
    t.key == ForeignKey || exists k :: 0 <= k < |tokens| && tokens[k].token == t
  }

  ghost predicate TokenOk(tokens: seq<Minted>, request: Request) {
    match request
    case VerifyRequest(token, _, _) => Presentable(tokens, token)
    case RefreshRequest(token) => Presentable(tokens, token)
    case _ => true
  }

  /** Random draws do not repeat what was drawn before. */
  ghost predicate FreshDraw(w: World, s: State, t: Thread, inp: Input)
    requires GoodInput(inp)
  {
    && (t.SetupCheck? ==> inp.secret != "" && inp.secret !in s.secrets)
    && (t.EnableCheck? ==>
          && Distinct(HashesOf(w, inp.raws, inp.salts))
          && forall h :: h in HashesOf(w, inp.raws, inp.salts) ==> h !in s.hashes)
  }

  ghost predicate Enabled(w: World, s: State, a: Action) {
    match a
    case Arrive(request) => RequestOk(w, request) && TokenOk(s.tokens, request)
    case Proceed(id, inp) =>
      && id < |s.flights| && !s.flights[id].thread.Answered? && WellFormed(s.flights[id].thread)
      && GoodInput(inp) && FreshDraw(w, s, s.flights[id].thread, inp)
    case Tick(_, elapsed) => elapsed >= 0.0
    case ResetByShell(password, salt) => password in w.passwords && |salt| == ARGON_SALT_LEN
  }

  predicate AtLimiter(t: Thread) {
    t.VerifyLimit? || t.SetupLimit? || t.EnableLimit? || t.DisableLimit?
  }

  predicate ReadsRow(t: Thread) {
    t.Start? || t.VerifyList? || t.EnableReread? || t.LoginReread?
  }

  function NoteOf(f: Flight): Note
    requires WellFormed(f.thread)
  {
    match f.thread
    case VerifySwap(_, prev, index) => Note.Spent(prev[index])
    case EnableWrite(_, _, _, _) => CheckedAt(f.checkedAt)
    case LoginSwap(_, password) => Typed(password)
    case PasswordWrite(_, password) => Typed(password)
    case _ => Nothing
  }

  function MintedIn(t: Thread, origin: nat): seq<Minted> {
    match t
    case Answered(Session(access, refresh)) => [Minted(access, origin), Minted(refresh, origin)]
    case Answered(PreAuth(token)) => [Minted(token, origin)]
    case _ => []
  }

  /** The steps with a statement of their own. */
  predicate AsksDatabase(t: Thread) {
    ReadsRow(t) || t.VerifyConsume? || t.VerifySwap? || t.SetupWrite? || t.EnableWrite? || t.DisableWrite?
    || t.LoginSwap? || t.LoginClear? || t.PasswordWrite?
  }

  /** The steps that cannot go on without the row. The read an enable makes when it has lost only words its
      refusal. */
  predicate NeedsRow(t: Thread) {
    (t.Start? && !t.request.RefreshRequest?) || t.VerifyList? || t.LoginReread?
  }

  /** The steps that draw a secret or recovery codes. */
  predicate DrawsCodes(t: Thread) {
    t.SetupCheck? || t.EnableCheck?
  }

  /** The steps that compare a code with the clock. */
  predicate ReadsClock(t: Thread) {
    t.VerifyCheck? || t.EnableCheck? || t.DisableCheck?
  }

  function Flown(f: Flight, t: Thread, s: State, inp: Input, landed: bool): Flight {
    f.(thread := t,
       faulted := f.faulted || (inp.fault && AsksDatabase(f.thread)),
       failed := inp.fault && AsksDatabase(f.thread),
       unread := f.unread || (inp.fault && NeedsRow(f.thread)),
       broken := if DrawsCodes(f.thread) then inp.generatorFails else inp.signingFails,
       startedAt := if f.thread.Start? then s.wall else f.startedAt,
       checkedAt := if ReadsClock(f.thread) then s.wall else f.checkedAt,
       endedAt := s.wall,
       first := if f.thread.Start? then |s.log| else f.first,
       tried := if f.thread.LoginClear? then |s.log| else f.tried,
       last := if ReadsRow(f.thread) || (f.thread.LoginClear? && landed) then |s.log| else f.last,
       end := if landed then |s.log| + 1 else |s.log|)
  }

  function ViewOf(s: State): View {
    View(s.row, s.wall, Allowed(s.bucket, s.mono))
  }

  function ProceedWith(w: World, s: State, id: nat, inp: Input): State
    requires id < |s.flights| && WellFormed(s.flights[id].thread) && GoodInput(inp)
  {
    var f := s.flights[id];
    var landed := Landed(w, f.thread, s.row, inp);
    var (t, row) := Advance(w, f.thread, ViewOf(s), inp);
    var admits := AtLimiter(f.thread) && Allowed(s.bucket, s.mono);
    State(row,
          s.flights[id := Flown(f, t, s, inp, landed)],
          s.wall, s.mono,
          if AtLimiter(f.thread) then Taken(s.bucket, s.mono) else s.bucket,
          if admits then s.admitted + [s.mono] else s.admitted,
          if admits then s.admittedFor + [id] else s.admittedFor,
          s.tokens + MintedIn(t, id),
          if f.thread.SetupCheck? then s.secrets + {inp.secret} else s.secrets,
          if f.thread.EnableCheck? then s.hashes + (set h | h in HashesOf(w, inp.raws, inp.salts)) else s.hashes,
          if landed then s.log + [Entry(Some(id), StatementOf(w, f.thread, inp).value, NoteOf(f))] else s.log)
  }

  function Next(w: World, s: State, a: Action): State
    requires a.Proceed? ==> a.id < |s.flights| && WellFormed(s.flights[a.id].thread) && GoodInput(a.inp)
  {
    match a
    case Arrive(request) =>
      var f := Flight(request, Start(request), false, false, false, false, |s.tokens|,
                      0, 0, 0, |s.log|, 0, 0, 0, |s.log|);
      s.(flights := s.flights + [f])
    case Proceed(id, inp) => ProceedWith(w, s, id, inp)
    case Tick(wall, elapsed) => s.(wall := wall, mono := s.mono + elapsed)
    case ResetByShell(password, salt) =>
      var stmt := Reset(HashPassword(w.pw, password, salt));
      s.(row := Write(s.row, stmt), log := s.log + [Entry(None, stmt, Typed(password))])
  }

  /** Runs: any actions, in any order, each enabled where it is taken. */
  ghost predicate ValidRun(w: World, s0: State, run: seq<Action>)
    decreases |run|, 0
  {
    run == [] || (ValidRun(w, s0, run[..|run| - 1])
                  && Enabled(w, After(w, s0, run[..|run| - 1]), run[|run| - 1]))
  }

  ghost function After(w: World, s0: State, run: seq<Action>): State
    requires ValidRun(w, s0, run)
    decreases |run|, 1
  {
    if run == [] then s0 else Next(w, After(w, s0, run[..|run| - 1]), run[|run| - 1])
  }
}
