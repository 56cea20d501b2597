/**
  Refresh-token rotation. Tokens are their row numbers; a login opens a family
  and a refresh replaces a token within it. A refresh reads the presented
  token, and later writes what it decided then: other calls may come between.
 */
module RefreshTokens {
  import opened Wrappers
  import opened Calendar

  type User = nat

  datatype Token = Token(user: User, family: nat, expiresAt: Time, revoked: bool, replacedBy: Option<nat>)

  /** The account checks of a refresh: ACTIVE, not locked out, no password change due. */
  datatype Standing = Standing(active: bool, lockedUntil: Option<Time>, mustChangePassword: bool)

  /** What a refresh has left to write: a rotation, or the revocation of a family whose replaced token was presented. */
  datatype Call = ROTATING(token: nat) | KILLING(token: nat) | ANSWERED

  datatype State = State(tokens: seq<Token>, calls: seq<Call>)

  datatype Event =
    | LOGIN(user: User, expiresAt: Time)
    | READ(presented: nat, now: Time, standing: Standing)
    | WRITE(call: nat)
    | LOGOUT(presented: nat)
    | REVOKE_USER(user: User)

  // ---- steps ------------------------------------------------------------

  function RevokeFamily(tokens: seq<Token>, f: nat): (r: seq<Token>)
    ensures |r| == |tokens|
    ensures forall i :: 0 <= i < |r| ==>
            r[i] == if tokens[i].family == f then tokens[i].(revoked := true) else tokens[i]
  {
    seq(|tokens|, i requires 0 <= i < |tokens| =>
      if tokens[i].family == f then tokens[i].(revoked := true) else tokens[i])
  }

  function RevokeAllOf(tokens: seq<Token>, user: User): (r: seq<Token>)
    ensures |r| == |tokens|
    ensures forall i :: 0 <= i < |r| ==>
            r[i] == if tokens[i].user == user then tokens[i].(revoked := true) else tokens[i]
  {
    seq(|tokens|, i requires 0 <= i < |tokens| =>
      if tokens[i].user == user then tokens[i].(revoked := true) else tokens[i])
  }

  predicate MayRefresh(st: Standing, now: Time) {
    st.active && !(st.lockedUntil.Some? && st.lockedUntil.value > now) && !st.mustChangePassword
  }

  /** The refresh goes through: unrevoked, never replaced, not expired, the user in good standing. */
  predicate Rotates(tokens: seq<Token>, t: nat, now: Time, st: Standing) {
    t < |tokens| && tokens[t].replacedBy.None? && !tokens[t].revoked && !(tokens[t].expiresAt < now)
      && MayRefresh(st, now)
  }

  function Reading(tokens: seq<Token>, t: nat, now: Time, st: Standing): Call {
    if t < |tokens| && tokens[t].replacedBy.Some? then KILLING(t)
    else if Rotates(tokens, t, now, st) then ROTATING(t)
    else ANSWERED
  }

  /** A new token in the family with the same expiry; the presented one revoked and pointing at it. */
  function Rotate(tokens: seq<Token>, t: nat): seq<Token>
    requires t < |tokens|
  {
    var was := tokens[t];
    tokens[t := was.(revoked := true, replacedBy := Some(|tokens|))]
      + [Token(was.user, was.family, was.expiresAt, false, None)]
  }

  /** What a call writes, whatever has become of the token it read. */
  function Written(tokens: seq<Token>, c: Call): seq<Token> {
    if c.ANSWERED? || c.token >= |tokens| then tokens
    else if c.KILLING? then RevokeFamily(tokens, tokens[c.token].family)
    else Rotate(tokens, c.token)
  }

  function Step(s: State, e: Event): State {
    match e
    case LOGIN(user, expiresAt) => s.(tokens := s.tokens + [Token(user, |s.tokens|, expiresAt, false, None)])
    case READ(t, now, st) => s.(calls := s.calls + [Reading(s.tokens, t, now, st)])
    case WRITE(c) => if c < |s.calls| then State(Written(s.tokens, s.calls[c]), s.calls[c := ANSWERED]) else s
    case LOGOUT(t) => if t < |s.tokens| then s.(tokens := s.tokens[t := s.tokens[t].(revoked := true)]) else s
    case REVOKE_USER(user) => s.(tokens := RevokeAllOf(s.tokens, user))
  }

  function Run(s: State, events: seq<Event>): State {
    if events == [] then s else Step(Run(s, events[..|events| - 1]), events[|events| - 1])
  }

  function Start(): State { State([], []) }

  // ---- the program --------------------------------------------------------

  class TokenTable {
    var tokens: seq<Token>

    constructor ()
      ensures tokens == [] && Sound(State(tokens, [])) && Chains(tokens)
    {
      tokens := [];
    }

    /** A login: a live token that starts a family of its own. */
    method CompleteLogin(user: User, expiresAt: Time) returns (t: nat)
      requires Sound(State(tokens, [])) && Chains(tokens)
      modifies this
      ensures Sound(State(tokens, [])) && Chains(tokens)
      ensures State(tokens, []) == Step(State(old(tokens), []), LOGIN(user, expiresAt)) && t == |old(tokens)|
      ensures tokens[t] == Token(user, t, expiresAt, false, None)
      ensures forall u :: 0 <= u < |tokens| && tokens[u].family == tokens[t].family ==> u == t
    {
      StepIsSound(State(tokens, []), LOGIN(user, expiresAt));
      FittingStepKeeps(State(tokens, []), LOGIN(user, expiresAt));
      assert forall u :: 0 <= u < |tokens| ==> tokens[u].family < |tokens|;
      hide Sound, Chains;
      t := |tokens|;
      tokens := tokens + [Token(user, t, expiresAt, false, None)];
    }

    /** updateMany over the rows of a family that are not revoked yet. */
    method RevokeWholeFamily(f: nat)
      modifies this
      ensures tokens == RevokeFamily(old(tokens), f)
    {
      for i := 0 to |tokens|
        invariant |tokens| == |old(tokens)|
        invariant tokens[..i] == RevokeFamily(old(tokens), f)[..i]
        invariant tokens[i..] == old(tokens)[i..]
      {
        assert tokens[i] == tokens[i..][0] == old(tokens)[i];
        if tokens[i].family == f && !tokens[i].revoked {
          tokens := tokens[i := tokens[i].(revoked := true)];
        }
      }
    }

    /** The reads of a refresh: what the call will write. */
    method ReadToken(t: nat, now: Time, st: Standing) returns (c: Call)
      ensures c == Reading(tokens, t, now, st)
      ensures c.ROTATING? <==>
              && t < |tokens| && tokens[t].replacedBy == None && !tokens[t].revoked && now <= tokens[t].expiresAt
              && st.active && !st.mustChangePassword && (st.lockedUntil == None || st.lockedUntil.value <= now)
      ensures c.KILLING? <==> t < |tokens| && tokens[t].replacedBy.Some?
      ensures !c.ANSWERED? ==> c.token == t
    {
      if t >= |tokens| {
        return ANSWERED;
      }
      var stored := tokens[t];
      if stored.replacedBy.Some? {
        return KILLING(t);
      }
      if stored.revoked || stored.expiresAt < now {
        return ANSWERED;
      }
      if !st.active || (st.lockedUntil.Some? && st.lockedUntil.value > now) || st.mustChangePassword {
        return ANSWERED;
      }
      return ROTATING(t);
    }

    /** Its writes: Some(new token), or None for a 401. */
    method Answer(c: Call) returns (issued: Option<nat>)
      requires !c.ANSWERED? ==> c.token < |tokens|
      modifies this
      ensures tokens == Written(old(tokens), c)
      ensures issued == if c.ROTATING? then Some(|old(tokens)|) else None
      ensures issued.Some? ==>
              !tokens[issued.value].revoked && tokens[issued.value].family == old(tokens)[c.token].family
    {
      if c.ANSWERED? {
        return None;
      }
      var stored := tokens[c.token];
      if c.KILLING? {
        RevokeWholeFamily(stored.family);
        return None;
      }
      var newToken := |tokens|;
      tokens := tokens + [Token(stored.user, stored.family, stored.expiresAt, false, None)];
      tokens := tokens[c.token := stored.(revoked := true, replacedBy := Some(newToken))];
      assert tokens == Rotate(old(tokens), c.token);
      return Some(newToken);
    }

    /** A refresh that nobody comes between. */
    method RefreshToken(t: nat, now: Time, st: Standing) returns (issued: Option<nat>)
      requires Sound(State(tokens, [])) && Chains(tokens)
      modifies this
      ensures Sound(State(tokens, [])) && Chains(tokens)
      ensures tokens == Written(old(tokens), Reading(old(tokens), t, now, st))
      ensures issued.Some? <==>
              && t < |old(tokens)| && old(tokens)[t].replacedBy == None && !old(tokens)[t].revoked
              && now <= old(tokens)[t].expiresAt
              && st.active && !st.mustChangePassword && (st.lockedUntil == None || st.lockedUntil.value <= now)
      ensures issued.Some? ==>
              && issued.value == |old(tokens)| == |tokens| - 1
              && tokens[issued.value]
                 == Token(old(tokens)[t].user, old(tokens)[t].family, old(tokens)[t].expiresAt, false, None)
              && tokens[t] == old(tokens)[t].(revoked := true, replacedBy := issued)
              && forall u :: 0 <= u < |old(tokens)| && u != t ==> tokens[u] == old(tokens)[u]
      ensures t < |old(tokens)| && old(tokens)[t].replacedBy.Some? ==> Dead(tokens, old(tokens)[t].family)
    {
      ghost var read := Step(State(tokens, []), READ(t, now, st));
      StepIsSound(State(tokens, []), READ(t, now, st));
      StepIsSound(read, WRITE(0));
      FittingStepKeeps(read, WRITE(0));
      assert t < |tokens| ==> tokens[t].family < |tokens|;
      SoundTable(Step(read, WRITE(0)));
      hide Sound, Chains;
      var c := ReadToken(t, now, st);
      issued := Answer(c);
    }

    /** A logout: the token is dead, and no other one is touched. */
    method LogoutToken(t: nat)
      requires Sound(State(tokens, [])) && Chains(tokens)
      modifies this
      ensures Sound(State(tokens, [])) && Chains(tokens)
      ensures |tokens| == |old(tokens)| && (t < |tokens| ==> tokens[t].revoked)
      ensures forall u :: 0 <= u < |tokens| && u != t ==> tokens[u] == old(tokens)[u]
    {
      StepIsSound(State(tokens, []), LOGOUT(t));
      FittingStepKeeps(State(tokens, []), LOGOUT(t));
      hide Sound, Chains;
      if t < |tokens| {
        tokens := tokens[t := tokens[t].(revoked := true)];
      }
    }
  }

  // ---- what every run keeps -------------------------------------------------

  /** Families are numbered by the token that opened them and share owner and expiry. */
  ghost predicate Families(tokens: seq<Token>) {
    && (forall t :: 0 <= t < |tokens| ==> tokens[t].family < |tokens|)
    && (forall t, u :: 0 <= t < u < |tokens| && tokens[t].family == tokens[u].family ==>
          tokens[t].user == tokens[u].user && tokens[t].expiresAt == tokens[u].expiresAt)
  }

  /** And calls know their tokens. */
  ghost predicate Sound(s: State) {
    && Families(s.tokens)
    && (forall c :: 0 <= c < |s.calls| && !s.calls[c].ANSWERED? ==> s.calls[c].token < |s.tokens|)
  }

  lemma SoundTable(s: State)
    requires Sound(s)
    ensures Sound(State(s.tokens, []))
  {
    hide Families;
  }

  /** Rows that keep owner, family and expiry, and at most one more that takes them from its family. */
  lemma FamiliesKept(tokens: seq<Token>, next: seq<Token>)
    requires Families(tokens) && |tokens| <= |next| <= |tokens| + 1
    requires forall t :: 0 <= t < |tokens| ==>
               next[t].user == tokens[t].user && next[t].family == tokens[t].family
                 && next[t].expiresAt == tokens[t].expiresAt
    requires |next| > |tokens| ==>
               var x := next[|tokens|];
               || x.family == |tokens|
               || exists t :: 0 <= t < |tokens|
                              && x == Token(tokens[t].user, tokens[t].family, tokens[t].expiresAt, false, None)
    ensures Families(next)
  {
  }

  lemma StepIsSound(s: State, e: Event)
    requires Sound(s)
    ensures Sound(Step(s, e))
  {
    hide Families, Reading;
    FamiliesKept(s.tokens, Step(s, e).tokens);
    if e.READ? {
      ReadingKnown(s.tokens, e);
    }
  }

  lemma ReadingKnown(tokens: seq<Token>, e: Event)
    requires e.READ?
    ensures var c := Reading(tokens, e.presented, e.now, e.standing); c.ANSWERED? || c.token == e.presented < |tokens|
  {
  }

  lemma {:induction false} RunIsSound(events: seq<Event>)
    ensures Sound(Run(Start(), events))
  {
    if events != [] {
      RunIsSound(events[..|events| - 1]);
      StepIsSound(Run(Start(), events[..|events| - 1]), events[|events| - 1]);
    }
  }

  // ---- a family is one chain ------------------------------------------------

  /** No token of its family comes after `t` and before `x`. */
  predicate Apart(tokens: seq<Token>, t: nat, x: nat)
    requires t < |tokens| && x <= |tokens|
  {
    forall u :: t < u < x ==> tokens[u].family != tokens[t].family
  }

  /**
    A token that was replaced is revoked and was replaced by the next one of its
    family; one that was not is the last.
   */
  ghost predicate Linked(tokens: seq<Token>, t: nat)
    requires t < |tokens|
  {
    match tokens[t].replacedBy
    case None => Apart(tokens, t, |tokens|)
    case Some(x) => t < x < |tokens| && tokens[x].family == tokens[t].family && Apart(tokens, t, x) && tokens[t].revoked
  }

  /** Every family is a single chain in order of creation. */
  ghost predicate Chains(tokens: seq<Token>) {
    forall t :: 0 <= t < |tokens| ==> Linked(tokens, t)
  }

  /** A rotation finds its token still not replaced: the guard that its update does not make. */
  predicate Fits(s: State, e: Event) {
    e.WRITE? && e.call < |s.calls| && s.calls[e.call].ROTATING? && s.calls[e.call].token < |s.tokens| ==>
      s.tokens[s.calls[e.call].token].replacedBy.None?
  }

  predicate FittingRun(events: seq<Event>) {
    || events == []
    || (FittingRun(events[..|events| - 1]) && Fits(Run(Start(), events[..|events| - 1]), events[|events| - 1]))
  }

  lemma RotateKeeps(tokens: seq<Token>, t: nat)
    requires Chains(tokens) && t < |tokens| && tokens[t].replacedBy.None?
    ensures Chains(Rotate(tokens, t))
  {
    var next := Rotate(tokens, t);
    forall u | 0 <= u < |next|
      ensures Linked(next, u)
    {
      if u < |tokens| {
        assert Linked(tokens, u) && Linked(tokens, t);
      }
    }
  }

  lemma LoginKeeps(tokens: seq<Token>, x: Token)
    requires Chains(tokens) && x.family == |tokens| && x.replacedBy.None?
    requires forall t :: 0 <= t < |tokens| ==> tokens[t].family < |tokens|
    ensures Chains(tokens + [x])
  {
    forall t | 0 <= t < |tokens| + 1
      ensures Linked(tokens + [x], t)
    {
      assert t < |tokens| ==> Linked(tokens, t);
    }
  }

  /** Revoking changes nothing else. */
  lemma RevokingKeeps(tokens: seq<Token>, next: seq<Token>)
    requires Chains(tokens) && |next| == |tokens|
    requires forall i :: 0 <= i < |tokens| ==> next[i] == tokens[i] || next[i] == tokens[i].(revoked := true)
    ensures Chains(next)
  {
    forall t | 0 <= t < |tokens|
      ensures Linked(next, t)
    {
      assert Linked(tokens, t);
    }
  }

  lemma FittingStepKeeps(s: State, e: Event)
    requires Sound(s) && Chains(s.tokens) && Fits(s, e)
    ensures Chains(Step(s, e).tokens)
  {
    if e.LOGIN? {
      LoginKeeps(s.tokens, Token(e.user, |s.tokens|, e.expiresAt, false, None));
    } else if e.WRITE? && e.call < |s.calls| && s.calls[e.call].ROTATING? {
      RotateKeeps(s.tokens, s.calls[e.call].token);
    } else {
      RevokingKeeps(s.tokens, Step(s, e).tokens);
    }
  }

  /** A family that has forked: some token was passed over by the replacement of an older one. */
  ghost predicate PassedOver(tokens: seq<Token>, t: nat, u: nat) {
    t < u < |tokens| && tokens[u].family == tokens[t].family && tokens[t].replacedBy.Some?
      && u < tokens[t].replacedBy.value
  }

  ghost predicate Forked(tokens: seq<Token>) {
    exists t, u :: PassedOver(tokens, t, u)
  }

  lemma ForkIsNoChain(tokens: seq<Token>)
    requires Forked(tokens)
    ensures !Chains(tokens)
  {
    var t, u :| PassedOver(tokens, t, u);
    assert !Linked(tokens, t);
  }

  /** A rotation of a token that was replaced meanwhile forks its family. */
  lemma MisfitForks(s: State, e: Event)
    requires Chains(s.tokens) && !Fits(s, e)
    ensures Forked(Step(s, e).tokens)
  {
    var t := s.calls[e.call].token;
    assert Linked(s.tokens, t);
    assert PassedOver(Step(s, e).tokens, t, s.tokens[t].replacedBy.value);
  }

  /** A fork never heals. */
  lemma ForkStays(s: State, e: Event)
    requires Forked(s.tokens)
    ensures Forked(Step(s, e).tokens)
  {
    var t, u :| PassedOver(s.tokens, t, u);
    assert PassedOver(Step(s, e).tokens, t, u);
  }

  /** Over any run every family is a single chain if and only if every rotation found its token not replaced. */
  lemma {:induction false} FamiliesAreChainsWhen(events: seq<Event>)
    ensures Chains(Run(Start(), events).tokens) <==> FittingRun(events)
    ensures !FittingRun(events) ==> Forked(Run(Start(), events).tokens)
  {
    hide Step, Fits, Chains, Forked, Sound;
    if events == [] {
      NoTokens();
    } else {
      var before, e := Run(Start(), events[..|events| - 1]), events[|events| - 1];
      FamiliesAreChainsWhen(events[..|events| - 1]);
      RunIsSound(events[..|events| - 1]);
      if FittingRun(events) {
        FittingStepKeeps(before, e);
      } else {
        if FittingRun(events[..|events| - 1]) {
          MisfitForks(before, e);
        } else {
          ForkStays(before, e);
        }
        ForkIsNoChain(Step(before, e).tokens);
      }
    }
  }

  lemma NoTokens()
    ensures Chains(Start().tokens)
  {
  }

  /**
    Two tokens of one family share owner and expiry in every run, and in a fitting
    one the older is revoked and replaced.
   */
  lemma OnlyTheTipIsLive(events: seq<Event>, s: nat, t: nat)
    requires var tokens := Run(Start(), events).tokens; s < t < |tokens| && tokens[s].family == tokens[t].family
    ensures var tokens := Run(Start(), events).tokens;
            && tokens[s].expiresAt == tokens[t].expiresAt && tokens[s].user == tokens[t].user
            && (FittingRun(events) ==> tokens[s].revoked && tokens[s].replacedBy.Some?)
  {
    var tokens := Run(Start(), events).tokens;
    FamiliesAreChainsWhen(events);
    RunIsSound(events);
    if FittingRun(events) {
      assert Linked(tokens, s);
    }
  }

  // ---- reuse ------------------------------------------------------------

  ghost predicate Dead(tokens: seq<Token>, f: nat) {
    f < |tokens| && forall t :: 0 <= t < |tokens| && tokens[t].family == f ==> tokens[t].revoked
  }

  /** A refresh of the family that has read its token and not written yet. */
  predicate InFlight(s: State, c: nat, f: nat) {
    c < |s.calls| && s.calls[c].ROTATING? && s.calls[c].token < |s.tokens| && s.tokens[s.calls[c].token].family == f
  }

  /** None of those in flight now is written in the rest of the run. */
  predicate NoneWritten(s: State, after: seq<Event>, f: nat) {
    forall k :: 0 <= k < |after| ==> !(after[k].WRITE? && InFlight(s, after[k].call, f))
  }

  ghost predicate DeadThroughout(s: State, after: seq<Event>, f: nat) {
    Dead(Run(s, after).tokens, f) && (after == [] || DeadThroughout(s, after[..|after| - 1], f))
  }

  /** The refreshes of `f` in flight are the same ones. */
  ghost predicate SameInFlight(s: State, r: State, f: nat) {
    forall c: nat :: InFlight(r, c, f) <==> InFlight(s, c, f)
  }

  /** While a family is dead no refresh of it gets past its read. */
  lemma DeadStays(s: State, r: State, e: Event, f: nat)
    requires Sound(r) && Dead(r.tokens, f) && SameInFlight(s, r, f)
    requires !(e.WRITE? && InFlight(s, e.call, f))
    ensures Dead(Step(r, e).tokens, f) && SameInFlight(s, Step(r, e), f)
  {
    var next := Step(r, e);
    assert forall c :: 0 <= c < |r.calls| ==> (InFlight(next, c, f) <==> InFlight(r, c, f));
  }

  lemma InFlightRevives(r: State, c: nat, f: nat)
    requires InFlight(r, c, f)
    ensures !Dead(Step(r, WRITE(c)).tokens, f)
  {
    var next := Step(r, WRITE(c)).tokens;
    assert next[|r.tokens|].family == f && !next[|r.tokens|].revoked;
  }

  lemma {:induction false} DeadThroughoutWhen(s: State, after: seq<Event>, f: nat)
    requires Sound(s) && Dead(s.tokens, f)
    ensures Sound(Run(s, after))
    ensures DeadThroughout(s, after, f) <==> NoneWritten(s, after, f)
    ensures NoneWritten(s, after, f) ==> SameInFlight(s, Run(s, after), f)
  {
    hide Sound, Dead, InFlight, Step;
    if after != [] {
      var n := |after| - 1;
      var r := Run(s, after[..n]);
      DeadThroughoutWhen(s, after[..n], f);
      StepIsSound(r, after[n]);
      assert NoneWritten(s, after, f)
             <==> NoneWritten(s, after[..n], f) && !(after[n].WRITE? && InFlight(s, after[n].call, f));
      if NoneWritten(s, after, f) {
        DeadStays(s, r, after[n], f);
      } else if NoneWritten(s, after[..n], f) {
        InFlightRevives(r, after[n].call, f);
      }
    }
  }

  /**
    Presenting a replaced token kills its family. It stays dead in every state
    of the rest of any run if and only if no refresh of it that had read its
    token before is written after.
   */
  lemma ReuseKillsFamilyWhen(before: seq<Event>, c: nat, after: seq<Event>)
    requires var s := Run(Start(), before); c < |s.calls| && s.calls[c].KILLING?
    ensures var s := Run(Start(), before);
            && s.calls[c].token < |s.tokens|
            && var killed, f := Step(s, WRITE(c)), s.tokens[s.calls[c].token].family;
            Dead(killed.tokens, f) && (DeadThroughout(killed, after, f) <==> NoneWritten(killed, after, f))
  {
    var s := Run(Start(), before);
    RunIsSound(before);
    StepIsSound(s, WRITE(c));
    DeadThroughoutWhen(Step(s, WRITE(c)), after, s.tokens[s.calls[c].token].family);
  }

  // ---- expiry and suspension ----------------------------------------------

  lemma {:induction false} CallsOnlyEnd(s: State, after: seq<Event>, c: nat)
    requires c < |s.calls| && !s.calls[c].ROTATING?
    ensures c < |Run(s, after).calls| && !Run(s, after).calls[c].ROTATING?
  {
    hide Reading, Written;
    if after != [] {
      CallsOnlyEnd(s, after[..|after| - 1], c);
    }
  }

  /**
    A refresh that reads its token after the family's expiry never leads to a new
    token, whatever happens in between.
   */
  lemma ExpiredNeverRenews(before: seq<Event>, t: nat, now: Time, st: Standing, after: seq<Event>)
    requires t < |Run(Start(), before).tokens| && Run(Start(), before).tokens[t].expiresAt < now
    ensures var s := Run(Start(), before);
            var r := Run(Step(s, READ(t, now, st)), after);
            |s.calls| < |r.calls| && |Step(r, WRITE(|s.calls|)).tokens| == |r.tokens|
  {
    var s := Run(Start(), before);
    CallsOnlyEnd(Step(s, READ(t, now, st)), after, |s.calls|);
  }

  /** Suspending a user revokes all of that user's tokens and changes nothing else. */
  lemma SuspensionRevokesAll(s: State, user: User)
    ensures var r := Step(s, REVOKE_USER(user));
            && r.calls == s.calls && |r.tokens| == |s.tokens|
            && forall t :: 0 <= t < |s.tokens| ==>
                 && (s.tokens[t].user == user ==> r.tokens[t].revoked)
                 && r.tokens[t].(revoked := s.tokens[t].revoked) == s.tokens[t]
                 && (s.tokens[t].user != user ==> r.tokens[t] == s.tokens[t])
  {
  }

  // ---- runs that fork a family or survive its death ---------------------------

  lemma RunSnoc(s: State, events: seq<Event>, e: Event)
    ensures Run(s, events + [e]) == Step(Run(s, events), e)
  {
    assert (events + [e])[..|events|] == events;
  }

  function Good(): Standing { Standing(true, None, false) }

  /** Two refreshes that both read a live token leave two live tokens in its family. */
  lemma OverlappingRefreshesFork(user: User, expiresAt: Time)
    ensures var read := READ(0, expiresAt, Good());
            var tokens := Run(Start(), [LOGIN(user, expiresAt)] + [read] + [read] + [WRITE(0)] + [WRITE(1)]).tokens;
            |tokens| == 3 && tokens[1].family == tokens[2].family && !tokens[1].revoked && !tokens[2].revoked
  {
    var read, e := READ(0, expiresAt, Good()), [LOGIN(user, expiresAt)];
    assert Run(Start(), e) == Step(Start(), LOGIN(user, expiresAt));
    hide Run;
    RunSnoc(Start(), e, read);
    RunSnoc(Start(), e + [read], read);
    RunSnoc(Start(), e + [read] + [read], WRITE(0));
    RunSnoc(Start(), e + [read] + [read] + [WRITE(0)], WRITE(1));
  }

  /** A refresh that read its token before a reuse was detected issues a live token after it. */
  lemma RefreshSurvivesReuse(user: User, expiresAt: Time)
    ensures var first, next := READ(0, expiresAt, Good()), READ(1, expiresAt, Good());
            var killed := Run(Start(), [LOGIN(user, expiresAt)] + [first] + [WRITE(0)] + [next] + [first] + [WRITE(2)]);
            Dead(killed.tokens, 0) && |Step(killed, WRITE(1)).tokens| == 3
            && Step(killed, WRITE(1)).tokens[2] == Token(user, 0, expiresAt, false, None)
  {
    var first, next, e := READ(0, expiresAt, Good()), READ(1, expiresAt, Good()), [LOGIN(user, expiresAt)];
    assert Run(Start(), e) == Step(Start(), LOGIN(user, expiresAt));
    hide Run;
    RunSnoc(Start(), e, first);
    RunSnoc(Start(), e + [first], WRITE(0));
    RunSnoc(Start(), e + [first] + [WRITE(0)], next);
    RunSnoc(Start(), e + [first] + [WRITE(0)] + [next], first);
    RunSnoc(Start(), e + [first] + [WRITE(0)] + [next] + [first], WRITE(2));
  }
}
