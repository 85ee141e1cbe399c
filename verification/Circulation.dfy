/** Where the tokens in circulation come from. */
module Circulation {
  import opened World
  import opened Password
  import opened Rows
  import opened Totp
  import opened Recovery
  import opened Handlers
  import opened Server
  import opened Invariants

  /** The answer a token was handed out with, and the key it was signed with. */
  ghost predicate HandedOut(w: World, m: Minted, f: Flight) {
    match f.thread
    case Answered(Session(access, refresh)) =>
      && access == Token(SessionKey, w.accessIssuer, f.endedAt + 3 * 3600)
      && refresh == Token(SessionKey, "refresh", f.endedAt + w.refreshLifetime)
      && (m.token == access || m.token == refresh)
    case Answered(PreAuth(token)) => m.token == token == Token(PreAuthKey, "2fa", f.endedAt + 300)
    case _ => false
  }

  ghost predicate Showed(tokens: seq<Minted>, known: nat, token: Token)
    requires known <= |tokens|
  {
    token.key == ForeignKey || exists k :: 0 <= k < known && tokens[k].token == token
  }

  ghost predicate ArrivedWith(tokens: seq<Minted>, f: Flight) {
    && f.known <= |tokens|
    && (f.request.VerifyRequest? ==> Showed(tokens, f.known, f.request.token))
    && (f.request.RefreshRequest? ==> Showed(tokens, f.known, f.request.token))
  }

  ghost predicate TokenTraced(w: World, s: State, k: nat)
    requires k < |s.tokens|
  {
    var m := s.tokens[k];
    m.origin < |s.flights| && s.flights[m.origin].known <= k && HandedOut(w, m, s.flights[m.origin])
  }

  /** Flight i comes after the flight that token k was handed out by: it arrived later, and began when
      that one had answered. */
  ghost predicate ComesAfter(s: State, i: nat, k: nat)
    requires i < |s.flights| && k < |s.tokens|
  {
    var f, o := s.flights[i], s.tokens[k].origin;
    o < i && (f.thread.Start? || s.flights[o].end <= f.first)
  }

  ghost predicate Traced(w: World, s: State) {
    && (forall i :: 0 <= i < |s.flights| ==> ArrivedWith(s.tokens, s.flights[i]) && s.flights[i].end <= |s.log|)
    && (forall k :: 0 <= k < |s.tokens| ==> TokenTraced(w, s, k))
    && (forall i, k :: 0 <= i < |s.flights| && 0 <= k < s.flights[i].known ==> ComesAfter(s, i, k))
  }

  /** Token k was handed out by flight root, or by a refresh that was shown an earlier token which
      descends from root. */
  ghost predicate Descends(s: State, k: nat, root: nat)
    requires k < |s.tokens|
    decreases k
  {
    s.tokens[k].origin == root || exists j :: RefreshedFrom(s, k, j) && Descends(s, j, root)
  }

  /** Token k is the refresh token, not the access token, of the session it was handed out with. */
  ghost predicate IsRefresh(s: State, k: nat)
    requires k < |s.tokens|
  {
    var m := s.tokens[k];
    && m.origin < |s.flights|
    && match s.flights[m.origin].thread
       case Answered(Session(access, refresh)) => m.token == refresh != access
       case _ => false
  }

  /** Token k is the pre-auth token a login stopped at the factor with. */
  ghost predicate IsPreAuth(s: State, k: nat)
    requires k < |s.tokens|
  {
    var m := s.tokens[k];
    m.origin < |s.flights| && s.flights[m.origin].thread == Answered(PreAuth(m.token))
  }

  /** The token it shows is one it could know of, and the refresh token of its session. */
  ghost predicate ShowsRefresh(s: State, f: Flight)
    requires f.request.RefreshRequest? && f.known <= |s.tokens|
  {
    exists k :: 0 <= k < f.known && s.tokens[k].token == f.request.token && IsRefresh(s, k)
  }

  /** The token it shows is one it could know of, handed out by a login less than five minutes before. */
  ghost predicate ShowsPreAuth(s: State, f: Flight)
    requires f.request.VerifyRequest? && f.known <= |s.tokens|
  {
    exists k :: 0 <= k < f.known && s.tokens[k].token == f.request.token && IsPreAuth(s, k)
                && f.startedAt < s.flights[s.tokens[k].origin].endedAt + 300
  }

  /** The refresh that handed out token k was shown, in time, token j: a refresh token handed out before
      it arrived. */
  ghost predicate RefreshedFrom(s: State, k: nat, j: nat)
    requires k < |s.tokens|
  {
    var o := s.tokens[k].origin;
    && o < |s.flights| && s.flights[o].request.RefreshRequest?
    && j < k && j < s.flights[o].known && s.tokens[j].token == s.flights[o].request.token
    && IsRefresh(s, j) && s.flights[o].startedAt < s.tokens[j].token.expires
  }

  lemma SignedAs(w: World, t: Thread, v: View, inp: Input, landed: bool)
    requires GoodInput(inp) && !t.Answered?
    ensures match Resume(w, t, v, inp, landed)
            case Answered(Session(access, refresh)) =>
              && access == Token(SessionKey, w.accessIssuer, v.wall + ACCESS_TTL)
              && refresh == Token(SessionKey, "refresh", v.wall + w.refreshLifetime)
            case Answered(PreAuth(token)) => token == IssuePreAuthToken(v.wall)
            case _ => true
  {
    hide VerifyPassword, NeedsRehash, HashPassword, VerifyTOTP, FirstMatch;
  }

  lemma ShownStays(tokens: seq<Minted>, more: seq<Minted>, f: Flight)
    requires ArrivedWith(tokens, f)
    ensures ArrivedWith(tokens + more, f)
  {
    if f.request.VerifyRequest? && f.request.token.key != ForeignKey {
      var k :| 0 <= k < f.known && tokens[k].token == f.request.token;
      assert (tokens + more)[k].token == f.request.token;
    }
    if f.request.RefreshRequest? && f.request.token.key != ForeignKey {
      var k :| 0 <= k < f.known && tokens[k].token == f.request.token;
      assert (tokens + more)[k].token == f.request.token;
    }
  }

  lemma ProceedKeepsTraced(w: World, s: State, id: nat, inp: Input)
    requires Traced(w, s) && Enabled(w, s, Proceed(id, inp))
    ensures Traced(w, ProceedWith(w, s, id, inp))
  {
    hide FreshDraw, VerifyPassword, NeedsRehash, HashPassword, Resume;
    var f, t := s.flights[id], ProceedWith(w, s, id, inp);
    var g := Flew(w, s, f, inp);
    var more := MintedIn(g.thread, id);
    SignedAs(w, f.thread, ViewOf(s), inp, Landed(w, f.thread, s.row, inp));
    assert t.flights == s.flights[id := g] && t.tokens == s.tokens + more;
    forall i | 0 <= i < |t.flights|
      ensures ArrivedWith(t.tokens, t.flights[i])
    {
      ShownStays(s.tokens, more, s.flights[i]);
    }
    forall k | 0 <= k < |t.tokens|
      ensures TokenTraced(w, t, k)
    {
      if k < |s.tokens| {
        assert TokenTraced(w, s, k);
      }
    }
    forall i, k | 0 <= i < |t.flights| && 0 <= k < t.flights[i].known
      ensures ComesAfter(t, i, k)
    {
      assert ArrivedWith(s.tokens, s.flights[i]);
      assert ComesAfter(s, i, k);
      assert TokenTraced(w, s, k);
    }
  }

  lemma ArriveKeepsTraced(w: World, s: State, request: Request)
    requires Traced(w, s) && Enabled(w, s, Arrive(request))
    ensures Traced(w, Next(w, s, Arrive(request)))
  {
    var t := Next(w, s, Arrive(request));
    forall k | 0 <= k < |t.tokens|
      ensures TokenTraced(w, t, k)
    {
      assert TokenTraced(w, s, k);
    }
    forall i, k | 0 <= i < |t.flights| && 0 <= k < t.flights[i].known
      ensures ComesAfter(t, i, k)
    {
      assert TokenTraced(w, s, k);
      assert i < |s.flights| ==> ComesAfter(s, i, k);
    }
  }

  lemma NextKeepsTraced(w: World, s: State, a: Action)
    requires Traced(w, s) && Enabled(w, s, a)
    ensures Traced(w, Next(w, s, a))
  {
    match a {
      case Arrive(request) => ArriveKeepsTraced(w, s, request);
      case Proceed(id, inp) => ProceedKeepsTraced(w, s, id, inp);
      case _ =>
        var t := Next(w, s, a);
        forall k | 0 <= k < |t.tokens|
          ensures TokenTraced(w, t, k)
        {
          assert TokenTraced(w, s, k);
        }
        forall i, k | 0 <= i < |t.flights| && 0 <= k < t.flights[i].known
          ensures ComesAfter(t, i, k)
        {
          assert ComesAfter(s, i, k);
        }
    }
  }

  lemma {:induction false} TracedHolds(w: World, row0: Row, wall: int, mono: real, run: seq<Action>)
    requires ValidRun(w, Initial(row0, wall, mono), run)
    ensures Traced(w, After(w, Initial(row0, wall, mono), run))
  {
    if run != [] {
      var front := run[..|run| - 1];
      TracedHolds(w, row0, wall, mono, front);
      NextKeepsTraced(w, After(w, Initial(row0, wall, mono), front), run[|run| - 1]);
    }
  }

  /** A live refresh token in circulation is the refresh token of its session, and a live pre-auth token
      that of a login. */
  lemma KindOfToken(w: World, s: State, k: nat)
    requires Traced(w, s) && k < |s.tokens| && w.accessIssuer != "refresh"
    ensures IsRefresh(s, k) <==> s.tokens[k].token.key == SessionKey && s.tokens[k].token.issuer == "refresh"
    ensures IsPreAuth(s, k) <==> s.tokens[k].token.key == PreAuthKey
    ensures IsPreAuth(s, k) ==>
              s.tokens[k].token == Token(PreAuthKey, "2fa", s.flights[s.tokens[k].origin].endedAt + 300)
  {
    assert TokenTraced(w, s, k);
  }

  lemma LiveRefreshIff(w: World, s: State, id: nat)
    requires Traced(w, s) && id < |s.flights| && s.flights[id].request.RefreshRequest? && w.accessIssuer != "refresh"
    ensures var f := s.flights[id];
            && f.known <= |s.tokens|
            && (LiveRefresh(f.request.token, f.startedAt) <==>
                  ShowsRefresh(s, f) && f.startedAt < f.request.token.expires)
  {
    var f := s.flights[id];
    assert ArrivedWith(s.tokens, f);
    if LiveRefresh(f.request.token, f.startedAt) {
      var k := ShownWasMinted(w, s, id, f.request.token);
      KindOfToken(w, s, k);
    }
    if ShowsRefresh(s, f) {
      var k :| 0 <= k < f.known && s.tokens[k].token == f.request.token && IsRefresh(s, k);
      KindOfToken(w, s, k);
    }
  }

  lemma LivePreAuthIff(w: World, s: State, id: nat)
    requires Traced(w, s) && id < |s.flights| && s.flights[id].request.VerifyRequest? && w.accessIssuer != "refresh"
    ensures s.flights[id].known <= |s.tokens|
    ensures LivePreAuth(s.flights[id].request.token, s.flights[id].startedAt) <==> ShowsPreAuth(s, s.flights[id])
  {
    var f := s.flights[id];
    assert ArrivedWith(s.tokens, f);
    if LivePreAuth(f.request.token, f.startedAt) {
      var k := ShownWasMinted(w, s, id, f.request.token);
      KindOfToken(w, s, k);
    }
    if ShowsPreAuth(s, f) {
      var k :| 0 <= k < f.known && s.tokens[k].token == f.request.token && IsPreAuth(s, k)
               && f.startedAt < s.flights[s.tokens[k].origin].endedAt + 300;
      KindOfToken(w, s, k);
    }
  }

  lemma TracedAt(w: World, s: State, k: nat)
    requires Traced(w, s) && k < |s.tokens|
    ensures TokenTraced(w, s, k)
  {
  }

  /** A presented token of this service was handed out before, by a flight that had answered. */
  lemma ShownWasMinted(w: World, s: State, id: nat, token: Token) returns (k: nat)
    requires Traced(w, s) && id < |s.flights|
    requires s.flights[id].request.VerifyRequest? || s.flights[id].request.RefreshRequest?
    requires s.flights[id].request.token == token
    requires token.key != ForeignKey
    ensures k < s.flights[id].known <= |s.tokens| && s.tokens[k].token == token
    ensures TokenTraced(w, s, k) && ComesAfter(s, id, k)
  {
    assert ArrivedWith(s.tokens, s.flights[id]);
    k :| 0 <= k < s.flights[id].known && s.tokens[k].token == token;
    assert TokenTraced(w, s, k);
  }
}
