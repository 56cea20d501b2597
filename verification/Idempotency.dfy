/**
  The idempotency-key middleware: a unique-constraint insert claims the key,
  the claimant runs the handler, its reply is stored later and served to
  replays. Requests proceed in any interleaving and may stop at any point.
 */
module Idempotency {
  import opened Wrappers

  /** Institution, user, endpoint and client key together. */
  type Key = nat

  type BodyHash = nat

  /** Status and body. */
  type Reply = nat

  datatype Row = Row(requestHash: BodyHash, claimant: nat, response: Option<Reply>)

  datatype Refusal = DIFFERENT_BODY | IN_PROGRESS

  /** How far one HTTP request has come. */
  datatype Phase =
    | ARRIVED
    | COLLIDED
    | CLAIMED
    | HANDLED
    | ANSWERED(reply: Reply)
    | REPLAYED(replayed: Reply)
    | REFUSED(refusal: Refusal)

  datatype Request = Request(key: Option<Key>, hash: BodyHash, phase: Phase)

  datatype State = State(rows: map<Key, Row>, requests: seq<Request>)

  datatype Event =
    | Arrive(key: Option<Key>, hash: BodyHash)
    | Insert(request: nat)
    | Find(request: nat)
    | Handle(request: nat)
    | Answer(request: nat, reply: Reply)
    | StoreReply(request: nat)

  // ---- steps ------------------------------------------------------------

  predicate At(s: State, r: nat, phase: Phase) {
    r < |s.requests| && s.requests[r].phase == phase
  }

  function Move(s: State, r: nat, phase: Phase): State
    requires r < |s.requests|
  {
    s.(requests := s.requests[r := s.requests[r].(phase := phase)])
  }

  /** Without the header the request goes straight to the handler. */
  function ArriveStep(s: State, key: Option<Key>, hash: BodyHash): State {
    s.(requests := s.requests + [Request(key, hash, if key.None? then CLAIMED else ARRIVED)])
  }

  function InsertStep(s: State, r: nat): State {
    if !At(s, r, ARRIVED) || s.requests[r].key.None? then s
    else
      var q := s.requests[r];
      if q.key.value in s.rows then Move(s, r, COLLIDED)
      else Move(s, r, CLAIMED).(rows := s.rows[q.key.value := Row(q.hash, r, None)])
  }

  function FindStep(s: State, r: nat): State {
    if !At(s, r, COLLIDED) || s.requests[r].key.None? || s.requests[r].key.value !in s.rows then s
    else
      var row := s.rows[s.requests[r].key.value];
      if row.requestHash != s.requests[r].hash then Move(s, r, REFUSED(DIFFERENT_BODY))
      else if row.response.None? then Move(s, r, REFUSED(IN_PROGRESS))
      else Move(s, r, REPLAYED(row.response.value))
  }

  /** The handler and its effect. */
  function HandleStep(s: State, r: nat): State {
    if At(s, r, CLAIMED) then Move(s, r, HANDLED) else s
  }

  /** res.json: the reply goes out ... */
  function AnswerStep(s: State, r: nat, reply: Reply): State {
    if At(s, r, HANDLED) then Move(s, r, ANSWERED(reply)) else s
  }

  /** ... and is stored on its own time, or never. */
  function StoreStep(s: State, r: nat): State {
    if r < |s.requests| && s.requests[r].phase.ANSWERED? && s.requests[r].key.Some? && s.requests[r].key.value in s.rows
    then
      var k := s.requests[r].key.value;
      s.(rows := s.rows[k := s.rows[k].(response := Some(s.requests[r].phase.reply))])
    else s
  }

  function Step(s: State, e: Event): State {
    match e
    case Arrive(key, hash) => ArriveStep(s, key, hash)
    case Insert(r) => InsertStep(s, r)
    case Find(r) => FindStep(s, r)
    case Handle(r) => HandleStep(s, r)
    case Answer(r, reply) => AnswerStep(s, r, reply)
    case StoreReply(r) => StoreStep(s, r)
  }

  function Run(s: State, events: seq<Event>): State {
    if events == [] then s else Step(Run(s, events[..|events| - 1]), events[|events| - 1])
  }

  const NOTHING := State(map[], [])

  // ---- the program --------------------------------------------------------

  class Middleware {
    var rows: map<Key, Row>
    var requests: seq<Request>

    function Now(): State
      reads this
    {
      State(rows, requests)
    }

    constructor ()
      ensures Now() == NOTHING
    {
      rows, requests := map[], [];
    }

    /** The middleware up to its decision: claim, or look up and answer in the handler's place. */
    method Idempotent(r: nat) returns (next: bool)
      requires At(Now(), r, ARRIVED) && requests[r].key.Some?
      modifies this
      ensures Now() == FindStep(InsertStep(old(Now()), r), r)
      ensures next <==> requests[r].phase == CLAIMED
      ensures next <==> old(requests[r].key.value !in rows)
      ensures next ==> rows == old(rows)[old(requests)[r].key.value := Row(old(requests)[r].hash, r, None)]
      ensures !next ==>
              && rows == old(rows)
              && var existing := old(rows)[old(requests)[r].key.value];
                 requests[r].phase
                 == if existing.requestHash != old(requests)[r].hash then REFUSED(DIFFERENT_BODY)
                    else match existing.response case None => REFUSED(IN_PROGRESS) case Some(reply) => REPLAYED(reply)
    {
      var key := requests[r].key.value;
      if key !in rows {
        rows := rows[key := Row(requests[r].hash, r, None)];
        requests := requests[r := requests[r].(phase := CLAIMED)];
        return true;
      }
      var existing := rows[key];
      if existing.requestHash != requests[r].hash {
        requests := requests[r := requests[r].(phase := REFUSED(DIFFERENT_BODY))];
      } else if existing.response.None? {
        requests := requests[r := requests[r].(phase := REFUSED(IN_PROGRESS))];
      } else {
        requests := requests[r := requests[r].(phase := REPLAYED(existing.response.value))];
      }
      return false;
    }

    /** The replaced res.json, and the write it starts. */
    method Json(r: nat, body: Reply, written: bool)
      requires At(Now(), r, HANDLED) && requests[r].key.Some? && requests[r].key.value in rows
      modifies this
      ensures Now() == if written then StoreStep(AnswerStep(old(Now()), r, body), r)
              else AnswerStep(old(Now()), r, body)
      ensures requests[r].phase == ANSWERED(body)
      ensures rows == if written then
                        var key := old(requests)[r].key.value; old(rows)[key := old(rows)[key].(response := Some(body))]
                      else old(rows)
    {
      requests := requests[r := requests[r].(phase := ANSWERED(body))];
      if written {
        var key := requests[r].key.value;
        rows := rows[key := rows[key].(response := Some(body))];
      }
    }
  }

  // ---- the invariant ------------------------------------------------------

  /** Past the claim: entitled to the handler, or already through it. */
  predicate Entitled(q: Request) {
    q.phase.CLAIMED? || q.phase.HANDLED? || q.phase.ANSWERED?
  }

  /** The row of a key names the one request that claimed it, and a stored response is that request's answer. */
  ghost predicate RowInv(s: State, k: Key)
    requires k in s.rows
  {
    var row := s.rows[k];
    && row.claimant < |s.requests|
    && var q := s.requests[row.claimant];
       && q.key == Some(k) && q.hash == row.requestHash && Entitled(q)
       && (row.response.Some? ==> q.phase == ANSWERED(row.response.value))
  }

  ghost predicate RequestInv(s: State, r: nat)
    requires r < |s.requests|
  {
    var q := s.requests[r];
    match q.key
    case None => Entitled(q)
    case Some(k) =>
      && (Entitled(q) ==> k in s.rows && s.rows[k].claimant == r)
      && (q.phase.COLLIDED? || q.phase.REPLAYED? || q.phase.REFUSED? ==> k in s.rows && s.rows[k].claimant != r)
      && (q.phase.REPLAYED? ==> s.rows[k].response == Some(q.phase.replayed) && s.rows[k].requestHash == q.hash)
      && (q.phase == REFUSED(DIFFERENT_BODY) ==> s.rows[k].requestHash != q.hash)
      && (q.phase == REFUSED(IN_PROGRESS) ==> s.rows[k].requestHash == q.hash)
  }

  ghost predicate Inv(s: State) {
    && (forall k :: k in s.rows ==> RowInv(s, k))
    && (forall r :: 0 <= r < |s.requests| ==> RequestInv(s, r))
  }

  /** The request an event acts on. */
  function Actor(e: Event): nat {
    match e
    case Arrive(_, _) => 0
    case Insert(r) => r
    case Find(r) => r
    case Handle(r) => r
    case Answer(r, _) => r
    case StoreReply(r) => r
  }

  lemma RowKept(s: State, e: Event, k: Key)
    requires k in Step(s, e).rows
    requires k in s.rows ==> RowInv(s, k)
    requires Actor(e) < |s.requests| ==> RequestInv(s, Actor(e))
    ensures RowInv(Step(s, e), k)
  {
  }

  lemma RequestKept(s: State, e: Event, r: nat)
    requires r < |Step(s, e).requests|
    requires r < |s.requests| ==> RequestInv(s, r)
    requires Actor(e) < |s.requests| ==> RequestInv(s, Actor(e))
    requires r < |s.requests| && s.requests[r].key.Some? && s.requests[r].key.value in s.rows ==>
             RowInv(s, s.requests[r].key.value)
    ensures RequestInv(Step(s, e), r)
  {
  }

  lemma StepKeeps(s: State, e: Event)
    requires Inv(s)
    ensures Inv(Step(s, e))
  {
    hide RowInv, RequestInv, Step;
    var t := Step(s, e);
    forall k | k in t.rows
      ensures RowInv(t, k)
    {
      RowKept(s, e, k);
    }
    forall r | 0 <= r < |t.requests|
      ensures RequestInv(t, r)
    {
      RequestKept(s, e, r);
    }
  }

  lemma {:induction false} RunKeeps(events: seq<Event>)
    ensures Inv(Run(NOTHING, events))
  {
    if events != [] {
      RunKeeps(events[..|events| - 1]);
      StepKeeps(Run(NOTHING, events[..|events| - 1]), events[|events| - 1]);
    }
  }

  // ---- what clients may rely on --------------------------------------------

  /** How often a run enters the handler for a key. */
  function HandlerRuns(s: State, events: seq<Event>, k: Key): nat {
    if events == [] then 0
    else
      var before, e := Run(s, events[..|events| - 1]), events[|events| - 1];
      HandlerRuns(s, events[..|events| - 1], k)
      + if e.Handle? && At(before, e.request, CLAIMED) && before.requests[e.request].key == Some(k) then 1 else 0
  }

  /** Whether the claimant of a key is through the handler. */
  predicate Handled(s: State, k: Key) {
    k in s.rows && s.rows[k].claimant < |s.requests| && var p := s.requests[s.rows[k].claimant].phase;
      p.HANDLED? || p.ANSWERED?
  }

  lemma HandledOnce(s: State, e: Event, k: Key)
    requires Inv(s)
    ensures Handled(Step(s, e), k)
            <==> Handled(s, k) || (e.Handle? && At(s, e.request, CLAIMED) && s.requests[e.request].key == Some(k))
    ensures !(Handled(s, k) && e.Handle? && At(s, e.request, CLAIMED) && s.requests[e.request].key == Some(k))
  {
    if k in s.rows {
      assert RowInv(s, k);
    }
    if e.Handle? && e.request < |s.requests| {
      assert RequestInv(s, e.request);
    }
  }

  /**
    Over every interleaving the handler runs at most once for a key: once if its
    claimant got that far, never otherwise.
   */
  lemma {:induction false} HandlerRunsAtMostOnce(events: seq<Event>, k: Key)
    ensures HandlerRuns(NOTHING, events, k) == if Handled(Run(NOTHING, events), k) then 1 else 0
  {
    if events != [] {
      HandlerRunsAtMostOnce(events[..|events| - 1], k);
      RunKeeps(events[..|events| - 1]);
      HandledOnce(Run(NOTHING, events[..|events| - 1]), events[|events| - 1], k);
    }
  }

  /** Of two requests with one key and different bodies at most one is ever entitled to the handler; and of any two. */
  lemma OneEntitledPerKey(events: seq<Event>, p: nat, q: nat)
    requires var s := Run(NOTHING, events);
             p < |s.requests| && q < |s.requests| && p != q && s.requests[p].key.Some?
               && s.requests[p].key == s.requests[q].key
    ensures var s := Run(NOTHING, events); !(Entitled(s.requests[p]) && Entitled(s.requests[q]))
  {
    RunKeeps(events);
    assert RequestInv(Run(NOTHING, events), p) && RequestInv(Run(NOTHING, events), q);
  }

  /**
    A reply served from the store is the reply that the one run of the handler gave,
    to a request with the same body.
   */
  lemma ReplayIsTheAnswer(events: seq<Event>, r: nat)
    requires var s := Run(NOTHING, events); r < |s.requests| && s.requests[r].phase.REPLAYED?
    ensures var s := Run(NOTHING, events);
            exists c :: 0 <= c < |s.requests| && c != r && s.requests[c].key == s.requests[r].key
              && s.requests[c].hash == s.requests[r].hash
                   && s.requests[c].phase == ANSWERED(s.requests[r].phase.replayed)
  {
    RunKeeps(events);
    var s := Run(NOTHING, events);
    assert RequestInv(s, r);
    assert RowInv(s, s.requests[r].key.value);
    var c := s.rows[s.requests[r].key.value].claimant;
    assert s.requests[c].phase == ANSWERED(s.requests[r].phase.replayed);
  }

  /** A refusal says the truth about the key: another request holds it, with a different body or with the same one. */
  lemma RefusalsAreJustified(events: seq<Event>, r: nat)
    requires var s := Run(NOTHING, events); r < |s.requests| && s.requests[r].phase.REFUSED?
    ensures var s := Run(NOTHING, events);
            exists c :: 0 <= c < |s.requests| && c != r && s.requests[c].key == s.requests[r].key
              && Entitled(s.requests[c])
                   && (s.requests[r].phase.refusal == DIFFERENT_BODY <==> s.requests[c].hash != s.requests[r].hash)
  {
    RunKeeps(events);
    var s := Run(NOTHING, events);
    assert RequestInv(s, r);
    assert RowInv(s, s.requests[r].key.value);
    assert Entitled(s.requests[s.rows[s.requests[r].key.value].claimant]);
  }

  /** A request whose body differs from the claimant's is never let through, whatever happens next. */
  lemma {:induction false} DifferentBodyNeverRuns(before: seq<Event>, after: seq<Event>, r: nat)
    requires var s := Run(NOTHING, before);
             && r < |s.requests| && s.requests[r].key.Some? && s.requests[r].key.value in s.rows
             && s.rows[s.requests[r].key.value].requestHash != s.requests[r].hash
    ensures var t := Run(Run(NOTHING, before), after);
            && Inv(t) && r < |t.requests| && t.requests[r].key == Run(NOTHING, before).requests[r].key
            && t.requests[r].key.value in t.rows && t.rows[t.requests[r].key.value].requestHash != t.requests[r].hash
            && !Entitled(t.requests[r]) && !t.requests[r].phase.REPLAYED?
  {
    var s := Run(NOTHING, before);
    RunKeeps(before);
    assert RequestInv(s, r) && RowInv(s, s.requests[r].key.value);
    if after != [] {
      var n := |after| - 1;
      DifferentBodyNeverRuns(before, after[..n], r);
      var m := Run(s, after[..n]);
      StepKeeps(m, after[n]);
      HashesStay(m, after[n], r, s.requests[r].key.value);
      var t := Step(m, after[n]);
      assert RequestInv(t, r) && RowInv(t, t.requests[r].key.value);
    }
  }

  /** No step changes a request's key or body, or a row's. */
  lemma HashesStay(s: State, e: Event, r: nat, k: Key)
    requires r < |s.requests| && k in s.rows
    ensures var t := Step(s, e);
            && |s.requests| <= |t.requests| && t.requests[r].key == s.requests[r].key
            && t.requests[r].hash == s.requests[r].hash
            && k in t.rows && t.rows[k].requestHash == s.rows[k].requestHash
  {
  }
}
