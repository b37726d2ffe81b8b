/** The idempotency guard for one (tenant, key) pair, as a timed state machine over the steps of its requests.
    A request looks the key up, marks it as processing if nothing is stored, runs its handler, and then stores a
    2xx response or deletes the key; a handler that raises leaves the mark. Times are in seconds. */
module Idempotency {
  import opened Common

  const IDEMPOTENCY_TTL := 86400
  const PROCESSING_TTL := 60

  type RequestId = nat

  /** A response body: JSON text can be stored, anything else cannot. */
  datatype Body = Json(text: string) | Other(bytes: seq<bv8>)

  datatype Response = Response(status: int, body: Body)

  datatype Slot = Absent | Processing | Completed(response: Response)

  /** The Redis key: what SETEX wrote, until it expires. */
  datatype Stored = Stored(slot: Slot, expiresAt: int)

  function Get(s: Stored, t: int): Slot {
    if t < s.expiresAt then s.slot else Absent
  }

  predicate Success(r: Response) { 200 <= r.status < 300 }

  /** The key after a handler has answered at time t. */
  function AfterHandler(s: Stored, t: int, r: Response): Stored {
    if !Success(r) then Stored(Absent, t)
    else if r.body.Json? then Stored(Completed(r), t + IDEMPOTENCY_TTL)
    else s
  }

  /** What the client gets of a handler's response. A success that cannot be stored has been read to its end by then,
      and its body is gone. */
  function Sent(r: Response): Response {
    if Success(r) && r.body.Other? then Response(r.status, Other([])) else r
  }

  datatype Answer = InProgress | Replayed(response: Response) | Executed(response: Response)

  // ---- Runs ----

  /** Where a request is: between its lookup and its mark, in its handler, out of a handler that raised, or done. */
  datatype Phase = Missed(at: int) | Running(since: int) | Raised(since: int) | Answered(answer: Answer)

  datatype Execution = Execution(start: int, end: int, response: Response)

  datatype World = World(stored: Stored, phases: map<RequestId, Phase>, executions: seq<Execution>, now: int)

  const START := World(Stored(Absent, 0), map[], [], 0)

  datatype Event =
    | Lookup(request: RequestId, time: int)
    | Mark(request: RequestId, time: int)
    | Finish(request: RequestId, time: int, response: Response)
    | Raise(request: RequestId, time: int)

  function LookupPhase(s: Stored, t: int): Phase {
    match Get(s, t)
    case Absent => Missed(t)
    case Processing => Answered(InProgress)
    case Completed(r) => Answered(Replayed(r))
  }

  predicate MissedBy(w: World, r: RequestId) { r in w.phases && w.phases[r].Missed? }

  predicate RunningBy(w: World, r: RequestId) { r in w.phases && w.phases[r].Running? }

  predicate RaisedBy(w: World, r: RequestId) { r in w.phases && w.phases[r].Raised? }

  /** An event that does not fit its request's phase changes nothing but the clock. */
  function Step(w: World, ev: Event): World {
    var r, t := ev.request, ev.time;
    match ev
    case Lookup(_, _) =>
      if r in w.phases then w.(now := t) else w.(phases := w.phases[r := LookupPhase(w.stored, t)], now := t)
    case Mark(_, _) =>
      if !MissedBy(w, r) then w.(now := t)
      else w.(stored := Stored(Processing, t + PROCESSING_TTL), phases := w.phases[r := Running(t)], now := t)
    case Finish(_, _, response) =>
      if !RunningBy(w, r) then w.(now := t)
      else World(AfterHandler(w.stored, t, response), w.phases[r := Answered(Executed(Sent(response)))],
                 w.executions + [Execution(w.phases[r].since, t, response)], t)
    case Raise(_, _) =>
      if !RunningBy(w, r) then w.(now := t) else w.(phases := w.phases[r := Raised(w.phases[r].since)], now := t)
  }

  function Run(events: seq<Event>): World {
    if events == [] then START else Step(Run(events[..|events| - 1]), events[|events| - 1])
  }

  /** The key as the middleware changes it. Each method is one step of the run model. */
  class IdempotencyKey {
    var slot: Slot
    var expiresAt: int
    ghost var world: World

    constructor ()
      ensures Valid() && world == START
    {
      slot, expiresAt, world := Absent, 0, START;
    }

    function View(): Stored
      reads this
    {
      Stored(slot, expiresAt)
    }

    /** The key holds what the run so far has left there. */
    ghost predicate Valid()
      reads this
    {
      View() == world.stored
    }

    /** The lookup answers the request, or lets it go on to its handler. */
    method Lookup(r: RequestId, t: int) returns (answer: Option<Answer>)
      requires Valid() && r !in world.phases
      modifies this
      ensures Valid() && world == Step(old(world), Event.Lookup(r, t))
      ensures world.phases[r] == match answer case None => Missed(t) case Some(a) => Answered(a)
    {
      world := Step(world, Event.Lookup(r, t));
      if t >= expiresAt {
        return None;
      }
      match slot {
        case Absent => answer := None;
        case Processing => answer := Some(InProgress);
        case Completed(r) => answer := Some(Replayed(r));
      }
    }

    method Mark(r: RequestId, t: int)
      requires Valid() && MissedBy(world, r)
      modifies this
      ensures Valid() && world == Step(old(world), Event.Mark(r, t))
    {
      world := Step(world, Event.Mark(r, t));
      slot, expiresAt := Processing, t + PROCESSING_TTL;
    }

    method Finish(r: RequestId, t: int, response: Response) returns (answer: Answer)
      requires Valid() && RunningBy(world, r)
      modifies this
      ensures Valid() && world == Step(old(world), Event.Finish(r, t, response))
      ensures world.phases[r] == Answered(answer)
    {
      world := Step(world, Event.Finish(r, t, response));
      if 200 <= response.status < 300 {
        if response.body.Json? {
          slot, expiresAt := Completed(response), t + IDEMPOTENCY_TTL;
          answer := Executed(response);
        } else {
          answer := Executed(response.(body := Other([])));
        }
      } else {
        slot, expiresAt := Absent, t;
        answer := Executed(response);
      }
    }

    /** The handler is called outside any handling of errors: what it raises passes through, and the mark stays. */
    method Raise(r: RequestId, t: int)
      requires Valid() && RunningBy(world, r)
      modifies this`world
      ensures Valid() && world == Step(old(world), Event.Raise(r, t))
    {
      world := Step(world, Event.Raise(r, t));
    }
  }

  // ---- The conditions ----

  /** Requests that have looked the key up in vain and not marked it yet. */
  function Unmarked(w: World): set<RequestId> {
    set r <- w.phases.Keys | MissedBy(w, r)
  }

  /** Every handler ends less than d seconds after its mark. */
  ghost predicate Prompt(d: nat, w: World, ev: Event) {
    forall r :: RunningBy(w, r) ==> ev.time < w.phases[r].since + d
  }

  /** Time moves forward, handlers end within d seconds, no more than k requests are between lookup and mark at
      once, and, unless any body is allowed, bodies of successes are JSON. */
  ghost predicate Allowed(d: nat, k: nat, anyBody: bool, w: World, ev: Event) {
    && w.now <= ev.time && Prompt(d, w, ev) && |Unmarked(Step(w, ev))| <= k
    && (ev.Finish? && Success(ev.response) && !anyBody ==> ev.response.body.Json?)
  }

  ghost predicate Legal(d: nat, k: nat, anyBody: bool, events: seq<Event>) {
    events != [] ==>
      && Legal(d, k, anyBody, events[..|events| - 1])
      && Allowed(d, k, anyBody, Run(events[..|events| - 1]), events[|events| - 1])
  }

  /** Handlers end before their mark expires, lookup and mark do not overlap with another request's, and every
      success can be stored. */
  ghost predicate Sound(d: nat, k: nat, anyBody: bool) {
    d <= 60 && k <= 1 && !anyBody
  }

  // ---- What every step of a sound run keeps ----

  ghost predicate Busy(w: World, r: RequestId) { MissedBy(w, r) || RunningBy(w, r) }

  /** No execution starts while an earlier success is remembered. */
  ghost predicate Spaced(w: World, start: int, n: nat)
    requires n <= |w.executions|
  {
    forall i :: 0 <= i < n && Success(w.executions[i].response) ==> w.executions[i].end + IDEMPOTENCY_TTL <= start
  }

  /** Execution i is a success whose time is not over. */
  ghost predicate Fresh(w: World, i: nat) {
    && i < |w.executions| && Success(w.executions[i].response)
    && w.now < w.executions[i].end + IDEMPOTENCY_TTL
  }

  /** The key holds the response of execution i. */
  ghost predicate Holds(w: World, i: nat) {
    && i < |w.executions| && Success(w.executions[i].response)
    && w.stored == Stored(Completed(w.executions[i].response), w.executions[i].end + IDEMPOTENCY_TTL)
  }

  /** The mark of a handler that raised has not expired. */
  ghost predicate Blocked(w: World, r: RequestId) {
    RaisedBy(w, r) && w.now < w.phases[r].since + PROCESSING_TTL
  }

  /** The key holds the mark of r, whose handler raised. */
  ghost predicate LeftBehind(w: World, r: RequestId) {
    RaisedBy(w, r) && w.stored.expiresAt == w.phases[r].since + PROCESSING_TTL
  }

  /** With nothing running, a success still within its time is what the key holds, and otherwise it holds nothing
      but the mark of a handler that raised. */
  ghost predicate Remembers(w: World) {
    && (w.stored.slot.Processing? ==> exists r :: LeftBehind(w, r))
    && (forall i: nat :: Fresh(w, i) ==> Holds(w, i))
    && (w.stored.slot.Completed? ==> exists i: nat :: Holds(w, i))
  }

  ghost predicate PhaseOk(w: World, r: RequestId) {
    && (MissedBy(w, r) ==>
          && w.phases[r].at <= w.now && Get(w.stored, w.now) == Absent && Spaced(w, w.phases[r].at, |w.executions|))
    && (RunningBy(w, r) ==>
          && w.phases[r].since <= w.now < w.phases[r].since + PROCESSING_TTL
          && w.stored == Stored(Processing, w.phases[r].since + PROCESSING_TTL)
          && Spaced(w, w.phases[r].since, |w.executions|))
    && (RaisedBy(w, r) ==>
          && w.phases[r].since <= w.now
          && (Blocked(w, r) ==> w.stored == Stored(Processing, w.phases[r].since + PROCESSING_TTL)))
  }

  ghost predicate Inv(w: World) {
    && (forall r, q :: Busy(w, r) && Busy(w, q) ==> r == q)
    && (forall r, q :: RunningBy(w, r) ==> !Blocked(w, q))
    && (forall r :: PhaseOk(w, r))
    && ((forall r :: !RunningBy(w, r)) ==> Remembers(w))
    && (forall j :: 0 <= j < |w.executions| ==>
          && w.executions[j].start <= w.executions[j].end <= w.now
          && Spaced(w, w.executions[j].start, j))
  }

  /** What the key holds depends on the executions only; successes only grow old. */
  lemma SameMemory(w: World, w': World)
    requires Remembers(w)
    requires w'.stored == w.stored && w'.executions == w.executions && w.now <= w'.now
    requires forall r :: RaisedBy(w, r) ==> RaisedBy(w', r) && w'.phases[r] == w.phases[r]
    ensures Remembers(w')
  {
    forall i: nat | Fresh(w', i) ensures Holds(w', i) {
      assert Fresh(w, i) && Holds(w, i);
    }
    if w.stored.slot.Completed? {
      var i: nat :| Holds(w, i);
      assert Holds(w', i);
    }
    if w.stored.slot.Processing? {
      var r :| LeftBehind(w, r);
      assert LeftBehind(w', r);
    }
  }

  /** Time passes. */
  lemma ClockKeepsInv(w: World, t: int)
    requires Inv(w) && w.now <= t
    requires forall r :: RunningBy(w, r) ==> t < w.phases[r].since + PROCESSING_TTL
    ensures Inv(w.(now := t))
  {
    var w' := w.(now := t);
    forall r
      ensures PhaseOk(w', r) && (Blocked(w', r) ==> Blocked(w, r))
      ensures (RunningBy(w', r) <==> RunningBy(w, r)) && (Busy(w', r) <==> Busy(w, r))
    {
      assert PhaseOk(w, r);
    }
    forall j | 0 <= j < |w.executions| ensures Spaced(w', w.executions[j].start, j) {
      assert Spaced(w, w.executions[j].start, j);
    }
    if forall r :: !RunningBy(w, r) {
      SameMemory(w, w');
    }
  }

  /** A miss means that nothing is running, no mark of a raised handler counts and no success is remembered. */
  lemma MissMeansFree(w: World)
    requires Inv(w) && Get(w.stored, w.now) == Absent
    ensures forall r :: !RunningBy(w, r) && !Blocked(w, r)
    ensures Spaced(w, w.now, |w.executions|)
  {
    forall r ensures !RunningBy(w, r) && !Blocked(w, r) {
      assert PhaseOk(w, r);
    }
    forall i: nat ensures !Fresh(w, i) {
      assert Fresh(w, i) ==> Holds(w, i);
    }
    forall i | 0 <= i < |w.executions| && Success(w.executions[i].response)
      ensures w.executions[i].end + IDEMPOTENCY_TTL <= w.now
    {
      assert !Fresh(w, i);
    }
  }

  lemma AtMostOne(s: set<RequestId>, a: RequestId, b: RequestId)
    requires a in s && b in s && |s| <= 1
    ensures a == b
  {
    var rest := s - {a};
    assert |rest| == 0;
    assert b !in rest;
  }

  lemma LookupKeepsInv(w: World, ev: Event)
    requires Inv(w) && Allowed(PROCESSING_TTL, 1, false, w, ev) && ev.Lookup? && ev.request !in w.phases
    ensures Inv(Step(w, ev))
  {
    var v, w', r := w.(now := ev.time), Step(w, ev), ev.request;
    ClockKeepsInv(w, ev.time);
    forall q | q != r
      ensures RunningBy(w', q) <==> RunningBy(v, q)
      ensures Busy(w', q) <==> Busy(v, q)
      ensures Blocked(w', q) <==> Blocked(v, q)
    {}
    if MissedBy(w', r) {
      MissMeansFree(v);
      forall q | Busy(w', q) ensures q == r {
        AtMostOne(Unmarked(w'), q, r);
      }
    }
    forall q ensures PhaseOk(w', q) {
      assert PhaseOk(v, q);
    }
    if forall q :: !RunningBy(v, q) {
      SameMemory(v, w');
    }
    forall j | 0 <= j < |v.executions| ensures Spaced(w', w'.executions[j].start, j) {
      assert Spaced(v, v.executions[j].start, j);
    }
  }

  lemma MarkKeepsInv(w: World, ev: Event)
    requires Inv(w) && Allowed(PROCESSING_TTL, 1, false, w, ev) && ev.Mark? && MissedBy(w, ev.request)
    ensures Inv(Step(w, ev))
  {
    var w', r := Step(w, ev), ev.request;
    assert PhaseOk(w, r) && Busy(w, r) && RunningBy(w', r);
    MissMeansFree(w);
    forall q ensures PhaseOk(w', q) && !Blocked(w', q) && (q != r ==> !Busy(w', q)) {
      assert PhaseOk(w, q) && !Blocked(w, q);
      if q != r {
        assert !Busy(w, q);
      }
    }
    forall j | 0 <= j < |w.executions| ensures Spaced(w', w'.executions[j].start, j) {
      assert Spaced(w, w.executions[j].start, j);
    }
  }

  /** A running handler is alone. */
  lemma RunningIsAlone(w: World, r: RequestId)
    requires Inv(w) && RunningBy(w, r)
    ensures PhaseOk(w, r)
    ensures forall q :: !Blocked(w, q) && (q != r ==> !Busy(w, q))
  {
    forall q ensures !Blocked(w, q) && (q != r ==> !Busy(w, q)) {
      assert Busy(w, r);
    }
  }

  lemma FinishKeepsInv(w: World, ev: Event)
    requires Inv(w) && Allowed(PROCESSING_TTL, 1, false, w, ev) && ev.Finish? && RunningBy(w, ev.request)
    ensures Inv(Step(w, ev))
  {
    var w', r := Step(w, ev), ev.request;
    var n := |w.executions|;
    RunningIsAlone(w, r);
    forall q ensures PhaseOk(w', q) && !Busy(w', q) && !Blocked(w', q) {
      assert PhaseOk(w, q) && !Blocked(w, q) && (q != r ==> !Busy(w, q));
    }
    forall i | 0 <= i < n ensures w'.executions[i] == w.executions[i] {}
    assert Remembers(w') by {
      forall i: nat | Fresh(w', i) ensures i == n {}
      assert Success(ev.response) ==> Holds(w', n);
    }
    forall j | 0 <= j < n + 1
      ensures w'.executions[j].start <= w'.executions[j].end <= w'.now && Spaced(w', w'.executions[j].start, j)
    {
      if j < n {
        assert Spaced(w, w.executions[j].start, j);
      }
    }
  }

  lemma RaiseKeepsInv(w: World, ev: Event)
    requires Inv(w) && Allowed(PROCESSING_TTL, 1, false, w, ev) && ev.Raise? && RunningBy(w, ev.request)
    ensures Inv(Step(w, ev))
  {
    var w', r := Step(w, ev), ev.request;
    RunningIsAlone(w, r);
    forall q ensures PhaseOk(w', q) && !RunningBy(w', q) && !Busy(w', q) {
      assert PhaseOk(w, q) && !Blocked(w, q) && (q != r ==> !Busy(w, q));
    }
    assert LeftBehind(w', r);
    forall i: nat ensures !Fresh(w', i) {}
    forall j | 0 <= j < |w.executions| ensures Spaced(w', w'.executions[j].start, j) {
      assert Spaced(w, w.executions[j].start, j);
    }
  }

  lemma StepKeepsInv(w: World, ev: Event)
    requires Inv(w) && Allowed(PROCESSING_TTL, 1, false, w, ev)
    ensures Inv(Step(w, ev))
  {
    if ev.Lookup? && ev.request !in w.phases {
      LookupKeepsInv(w, ev);
    } else if ev.Mark? && MissedBy(w, ev.request) {
      MarkKeepsInv(w, ev);
    } else if ev.Finish? && RunningBy(w, ev.request) {
      FinishKeepsInv(w, ev);
    } else if ev.Raise? && RunningBy(w, ev.request) {
      RaiseKeepsInv(w, ev);
    } else {
      ClockKeepsInv(w, ev.time);
    }
  }

  lemma {:induction false} RunKeepsInv(d: nat, k: nat, anyBody: bool, events: seq<Event>)
    requires Sound(d, k, anyBody) && Legal(d, k, anyBody, events)
    ensures Inv(Run(events))
  {
    if events != [] {
      RunKeepsInv(d, k, anyBody, events[..|events| - 1]);
      StepKeepsInv(Run(events[..|events| - 1]), events[|events| - 1]);
    }
  }

  lemma RunSnoc(events: seq<Event>, ev: Event)
    ensures Run(events + [ev]) == Step(Run(events), ev)
  {
    assert (events + [ev])[..|events|] == events;
  }

  // ---- Main results ----

  /** From the end of a successful execution, for 24 hours, the key is not executed again. */
  lemma OneSuccessPerDay(d: nat, k: nat, anyBody: bool, events: seq<Event>, i: nat, j: nat)
    requires Sound(d, k, anyBody) && Legal(d, k, anyBody, events) && i < j < |Run(events).executions|
    requires 200 <= Run(events).executions[i].response.status < 300
    ensures Run(events).executions[i].end + 86_400 <= Run(events).executions[j].start
  {
    RunKeepsInv(d, k, anyBody, events);
    assert Spaced(Run(events), Run(events).executions[j].start, j);
  }

  /** What a new request at time t gets: the stored response if a success is not 24 hours old, a conflict if a
      handler is running or raised less than 60 s after its mark was set, and its own execution otherwise. */
  lemma LookupOutcome(d: nat, k: nat, anyBody: bool, events: seq<Event>, r: RequestId, t: int)
    requires Sound(d, k, anyBody) && Legal(d, k, anyBody, events + [Lookup(r, t)]) && r !in Run(events).phases
    ensures var w := Run(events).(now := t);
            var phase := Run(events + [Lookup(r, t)]).phases[r];
            && (forall i: nat :: Fresh(w, i) ==> phase == Answered(Replayed(w.executions[i].response)))
            && ((exists q :: RunningBy(w, q) || Blocked(w, q)) ==> phase == Answered(InProgress))
            && ((forall i: nat :: !Fresh(w, i)) && (forall q :: !RunningBy(w, q) && !Blocked(w, q)) ==>
                  phase == Missed(t))
  {
    var ev := Lookup(r, t);
    var before := Run(events);
    RunSnoc(events, ev);
    assert (events + [ev])[..|events|] == events;
    RunKeepsInv(d, k, anyBody, events);
    ClockKeepsInv(before, t);
    var w := before.(now := t);
    forall q | RunningBy(w, q) || Blocked(w, q) ensures Get(w.stored, t) == Processing {
      assert PhaseOk(w, q);
    }
    forall i: nat | Fresh(w, i) ensures Holds(w, i) {
      forall q ensures !RunningBy(w, q) {
        assert PhaseOk(w, q);
      }
    }
    if (forall i: nat :: !Fresh(w, i)) && (forall q :: !RunningBy(w, q) && !Blocked(w, q)) {
      if w.stored.slot.Completed? {
        var i: nat :| Holds(w, i);
        assert !Fresh(w, i);
      } else if w.stored.slot.Processing? {
        var q :| LeftBehind(w, q);
        assert !Blocked(w, q);
      }
    }
  }

  /** In every run, the client of a handler that answers gets its response; only of a success that is not JSON it gets
      no body. */
  lemma ClientGetsResponse(events: seq<Event>, r: RequestId, t: int, response: Response)
    requires RunningBy(Run(events), r)
    ensures var answer := Run(events + [Finish(r, t, response)]).phases[r];
            if 200 <= response.status < 300 && response.body.Other?
            then answer == Answered(Executed(Response(response.status, Other([]))))
            else answer == Answered(Executed(response))
  {
    RunSnoc(events, Finish(r, t, response));
  }

  /** Execution j by request r is a success that its client got, and that may be replayed at time t. */
  ghost predicate MayReplay(w: World, r: RequestId, j: nat, response: Response, expiresAt: int) {
    && j < |w.executions| && w.executions[j].response == response && w.executions[j].end + 86_400 == expiresAt
    && 200 <= response.status < 300
    && r in w.phases && w.phases[r] == Answered(Executed(response))
  }

  /** What the key holds is what some client got. */
  ghost predicate StoredWasSent(w: World) {
    w.stored.slot.Completed? ==> exists r, j :: MayReplay(w, r, j, w.stored.slot.response, w.stored.expiresAt)
  }

  lemma {:induction false} RunStoresWhatWasSent(events: seq<Event>)
    ensures StoredWasSent(Run(events))
  {
    if events != [] {
      var w, ev := Run(events[..|events| - 1]), events[|events| - 1];
      var w' := Step(w, ev);
      RunStoresWhatWasSent(events[..|events| - 1]);
      if ev.Finish? && RunningBy(w, ev.request) && w'.stored != w.stored {
        if w'.stored.slot.Completed? {
          assert MayReplay(w', ev.request, |w.executions|, ev.response, w'.stored.expiresAt);
        }
      } else if w'.stored == w.stored && w.stored.slot.Completed? {
        var r, j :| MayReplay(w, r, j, w.stored.slot.response, w.stored.expiresAt);
        assert MayReplay(w', r, j, w.stored.slot.response, w.stored.expiresAt);
      }
    }
  }

  /** In every run, a replay is the response that the client of a success got, less than 24 hours after it ended. */
  lemma ReplayIsTheResponse(events: seq<Event>, q: RequestId, t: int, response: Response)
    requires q !in Run(events).phases
    requires Run(events + [Lookup(q, t)]).phases[q] == Answered(Replayed(response))
    ensures exists r, j, expiresAt :: MayReplay(Run(events), r, j, response, expiresAt) && t < expiresAt
  {
    RunSnoc(events, Lookup(q, t));
    RunStoresWhatWasSent(events);
    var w := Run(events);
    var r, j :| MayReplay(w, r, j, response, w.stored.expiresAt);
    assert t < w.stored.expiresAt;
  }

  /** The handler leaves the key as it is: it raises, or its success cannot be stored. */
  predicate LeavesKey(ending: Event) {
    ending.Raise? || (ending.Finish? && 200 <= ending.response.status < 300 && ending.response.body.Other?)
  }

  /** What a handler's end means for the next request. In every run a failure frees the key, and a success that can be
      stored is replayed for 24 hours. In a sound one anything else holds the key until 60 s after its mark. */
  lemma KeyAfterHandler(d: nat, k: nat, anyBody: bool, events: seq<Event>, ending: Event, r: RequestId, t: int)
    requires (ending.Finish? || ending.Raise?) && RunningBy(Run(events), ending.request) && r !in Run(events).phases
    ensures var phase := Run(events + [ending] + [Lookup(r, t)]).phases[r];
            && (ending.Finish? && !(200 <= ending.response.status < 300) ==> phase == Missed(t))
            && (ending.Finish? && 200 <= ending.response.status < 300 && !LeavesKey(ending) ==>
                  phase == if t < ending.time + 86_400 then Answered(Replayed(ending.response)) else Missed(t))
            && (LeavesKey(ending) && Sound(d, k, anyBody) && Legal(d, k, anyBody, events) ==>
                  phase == if t < Run(events).phases[ending.request].since + 60 then Answered(InProgress)
                           else Missed(t))
  {
    assert r != ending.request;
    RunSnoc(events, ending);
    RunSnoc(events + [ending], Lookup(r, t));
    if Sound(d, k, anyBody) && Legal(d, k, anyBody, events) {
      RunKeepsInv(d, k, anyBody, events);
      assert PhaseOk(Run(events), ending.request);
    }
  }

  // ---- Why each condition is needed ----

  ghost predicate TwoSuccessesInADay(w: World) {
    exists i, j :: 0 <= i < j < |w.executions| && Success(w.executions[i].response) && Success(w.executions[j].response)
                   && w.executions[j].start < w.executions[i].end + 86_400
  }

  /** A legal run goes on with an allowed event. */
  lemma LegalSnoc(d: nat, k: nat, anyBody: bool, events: seq<Event>, ev: Event)
    requires Legal(d, k, anyBody, events) && Allowed(d, k, anyBody, Run(events), ev)
    ensures Legal(d, k, anyBody, events + [ev]) && Run(events + [ev]) == Step(Run(events), ev)
  {
    assert (events + [ev])[..|events|] == events;
  }

  lemma {:induction false} Subset(a: set<RequestId>, b: set<RequestId>)
    requires a <= b
    ensures |a| <= |b|
  {
    if x :| x in a {
      Subset(a - {x}, b - {x});
    }
  }

  /** One event of a run that has reached w; no more than the given requests are unmarked after it. */
  lemma Go(d: nat, k: nat, anyBody: bool, events: seq<Event>, w: World, ev: Event, unmarked: set<RequestId>)
      returns (events': seq<Event>)
    requires Legal(d, k, anyBody, events) && Run(events) == w && w.now <= ev.time && Prompt(d, w, ev)
    requires (forall r :: MissedBy(Step(w, ev), r) ==> r in unmarked) && |unmarked| <= k
    requires ev.Finish? && Success(ev.response) && !anyBody ==> ev.response.body.Json?
    ensures Legal(d, k, anyBody, events') && Run(events') == Step(w, ev)
  {
    events' := events + [ev];
    Subset(Unmarked(Step(w, ev)), unmarked);
    LegalSnoc(d, k, anyBody, events, ev);
  }

  /** No request is unmarked, and those running have run for less than d seconds at time t. */
  ghost predicate Calm(d: nat, w: World, t: int) {
    forall r :: !MissedBy(w, r) && (RunningBy(w, r) ==> t < w.phases[r].since + d)
  }

  /** A new request that finds no key, and marks it at once. */
  lemma Begin(d: nat, k: nat, anyBody: bool, events: seq<Event>, w: World, r: RequestId, t: int)
      returns (events': seq<Event>, w': World)
    requires Legal(d, k, anyBody, events) && Run(events) == w && w.now <= t && k >= 1 && d >= 1
    requires Get(w.stored, t) == Absent && r !in w.phases && Calm(d, w, t)
    ensures Legal(d, k, anyBody, events') && Run(events') == w'
    ensures w' == World(Stored(Processing, t + PROCESSING_TTL), w.phases[r := Running(t)], w.executions, t)
    ensures Calm(d, w', t)
  {
    var v := Step(w, Lookup(r, t));
    assert forall q | q != r :: RunningBy(v, q) <==> RunningBy(w, q);
    events' := Go(d, k, anyBody, events, w, Lookup(r, t), {r});
    events' := Go(d, k, anyBody, events', v, Mark(r, t), {});
    w' := World(Stored(Processing, t + PROCESSING_TTL), w.phases[r := Running(t)], w.executions, t);
    assert v.phases[r := Running(t)] == w'.phases;
  }

  /** A running handler answers. */
  lemma End(d: nat, k: nat, anyBody: bool, events: seq<Event>, w: World, r: RequestId, t: int, response: Response)
      returns (events': seq<Event>, w': World)
    requires Legal(d, k, anyBody, events) && Run(events) == w && w.now <= t
    requires RunningBy(w, r) && Calm(d, w, t) && (Success(response) && !anyBody ==> response.body.Json?)
    ensures Legal(d, k, anyBody, events') && Run(events') == w'
    ensures w' == World(AfterHandler(w.stored, t, response), w.phases[r := Answered(Executed(Sent(response)))],
                        w.executions + [Execution(w.phases[r].since, t, response)], t)
    ensures Calm(d, w', t)
  {
    w' := Step(w, Finish(r, t, response));
    assert forall q | q != r :: RunningBy(w', q) <==> RunningBy(w, q);
    events' := Go(d, k, anyBody, events, w, Finish(r, t, response), {});
  }

  /** Two requests look the key up before either marks it. */
  lemma TwoMiss(d: nat, k: nat) returns (events: seq<Event>, w: World)
    requires d >= 1 && k >= 2
    ensures Legal(d, k, false, events) && Run(events) == w
    ensures w == World(Stored(Absent, 0), map[1 := Missed(0)][2 := Missed(0)], [], 0)
  {
    events := Go(d, k, false, [], START, Lookup(1, 0), {1});
    w := Step(START, Lookup(1, 0));
    events := Go(d, k, false, events, w, Lookup(2, 0), {1, 2});
    w := Step(w, Lookup(2, 0));
  }

  lemma LateMark(d: nat, k: nat, events: seq<Event>, w: World, r: RequestId, unmarked: set<RequestId>)
      returns (events': seq<Event>, w': World)
    requires Legal(d, k, false, events) && Run(events) == w && d >= 1
    requires w.now == 0 && MissedBy(w, r) && |unmarked| <= k
    requires forall q :: (MissedBy(w, q) ==> q == r || q in unmarked) && (RunningBy(w, q) ==> w.phases[q].since == 0)
    ensures Legal(d, k, false, events') && Run(events') == w'
    ensures w' == World(Stored(Processing, PROCESSING_TTL), w.phases[r := Running(0)], w.executions, 0)
    ensures forall q :: (MissedBy(w', q) ==> q in unmarked) && (RunningBy(w', q) ==> w'.phases[q].since == 0)
  {
    w' := Step(w, Mark(r, 0));
    assert forall q | q != r :: MissedBy(w', q) <==> MissedBy(w, q);
    events' := Go(d, k, false, events, w, Mark(r, 0), unmarked);
  }

  /** Two requests that both look the key up before either marks it both execute, with everything else in order. */
  lemma GapLetsTwoIn(d: nat, k: nat, ok: Response) returns (events: seq<Event>)
    requires d >= 1 && k >= 2 && Success(ok) && ok.body.Json?
    ensures Legal(d, k, false, events)
    ensures Run(events).executions == [Execution(0, 0, ok), Execution(0, 0, ok)]
    ensures TwoSuccessesInADay(Run(events))
  {
    var w: World;
    events, w := TwoMiss(d, k);
    events, w := LateMark(d, k, events, w, 1, {2});
    events, w := LateMark(d, k, events, w, 2, {});
    events, w := End(d, k, false, events, w, 1, 0, ok);
    events, w := End(d, k, false, events, w, 2, 0, ok);
    assert w.executions[0].response == ok && w.executions[1].response == ok;
  }

  /** Request 2, let in as soon as the mark of request 1 expires, succeeds while request 1 is still running. */
  lemma SlowHandlerIsOvertaken(d: nat, k: nat, ok: Response) returns (events: seq<Event>, w: World)
    requires d > 60 && k >= 1 && Success(ok) && ok.body.Json?
    ensures Legal(d, k, false, events) && Run(events) == w && Calm(d, w, 60)
    ensures w.now == 60 && w.executions == [Execution(60, 60, ok)] && 3 !in w.phases
    ensures RunningBy(w, 1) && w.phases[1].since == 0
  {
    events, w := Begin(d, k, false, [], START, 1, 0);
    events, w := Begin(d, k, false, events, w, 2, 60);
    events, w := End(d, k, false, events, w, 2, 60, ok);
  }

  /** A handler that outlives its mark by a moment, then fails, deletes the response stored by the request let in
      meanwhile; a third request succeeds again. */
  lemma SlowFailureForgetsSuccess(d: nat, k: nat, ok: Response, bad: Response) returns (events: seq<Event>)
    requires d > 60 && k >= 1 && Success(ok) && ok.body.Json? && !Success(bad)
    ensures Legal(d, k, false, events)
    ensures Run(events).executions == [Execution(60, 60, ok), Execution(0, 60, bad), Execution(60, 60, ok)]
    ensures TwoSuccessesInADay(Run(events))
  {
    var w: World;
    events, w := SlowHandlerIsOvertaken(d, k, ok);
    events, w := End(d, k, false, events, w, 1, 60, bad);
    events, w := Begin(d, k, false, events, w, 3, 60);
    events, w := End(d, k, false, events, w, 3, 60, ok);
    assert w.executions[0].response == ok && w.executions[2].response == ok;
  }

  /** A success whose body is not JSON is not stored, and is forgotten with its mark; nor does its client get the
      body. */
  lemma UnstorableSuccessIsRepeated(d: nat, k: nat, ok: Response) returns (events: seq<Event>)
    requires d >= 1 && k >= 1 && Success(ok) && ok.body.Other?
    ensures Legal(d, k, true, events)
    ensures Run(events).executions == [Execution(0, 0, ok), Execution(60, 60, ok)]
    ensures forall r :: r == 1 || r == 2 ==>
              r in Run(events).phases && Run(events).phases[r] == Answered(Executed(Response(ok.status, Other([]))))
    ensures TwoSuccessesInADay(Run(events))
  {
    var w: World;
    events, w := Begin(d, k, true, [], START, 1, 0);
    events, w := End(d, k, true, events, w, 1, 0, ok);
    events, w := Begin(d, k, true, events, w, 2, 60);
    events, w := End(d, k, true, events, w, 2, 60, ok);
    assert w.executions[0].response == ok && w.executions[1].response == ok;
  }

  /** If no request may be unmarked, or no handler may take any time, nothing is ever executed. */
  lemma {:induction false} NothingExecutes(d: nat, k: nat, anyBody: bool, events: seq<Event>)
    requires (k == 0 || d == 0) && Legal(d, k, anyBody, events)
    ensures var w := Run(events);
            && w.executions == []
            && (k == 0 ==> forall r :: !Busy(w, r))
            && (forall r :: RunningBy(w, r) ==> w.phases[r].since <= w.now)
  {
    if events != [] {
      var w, ev := Run(events[..|events| - 1]), events[|events| - 1];
      NothingExecutes(d, k, anyBody, events[..|events| - 1]);
      var w' := Step(w, ev);
      if k == 0 {
        assert Unmarked(w') == {};
        forall r ensures !MissedBy(w', r) && !RunningBy(w', r) {
          assert r !in Unmarked(w') && !Busy(w, r);
        }
      } else {
        forall r ensures !RunningBy(w, r) {}
      }
      assert !RunningBy(w, ev.request) by {
        assert !Busy(w, ev.request) || d == 0;
      }
    }
  }

  /** A run that keeps the conditions and yet succeeds twice in a day. */
  ghost predicate Breach(d: nat, k: nat, anyBody: bool, events: seq<Event>) {
    Legal(d, k, anyBody, events) && TwoSuccessesInADay(Run(events))
  }

  lemma AtMostOneSuccess(d: nat, k: nat, anyBody: bool, events: seq<Event>)
    requires Sound(d, k, anyBody) || k == 0 || d == 0
    requires Legal(d, k, anyBody, events)
    ensures !TwoSuccessesInADay(Run(events))
  {
    if k == 0 || d == 0 {
      NothingExecutes(d, k, anyBody, events);
    } else {
      RunKeepsInv(d, k, anyBody, events);
      var w := Run(events);
      forall j | 0 <= j < |w.executions| ensures Spaced(w, w.executions[j].start, j) {}
    }
  }

  lemma Unsound(d: nat, k: nat, anyBody: bool) returns (events: seq<Event>)
    requires d >= 1 && k >= 1 && !Sound(d, k, anyBody)
    ensures Legal(d, k, anyBody, events) && TwoSuccessesInADay(Run(events))
  {
    var ok := Response(200, Json(""));
    if anyBody {
      events := UnstorableSuccessIsRepeated(d, k, Response(200, Other([])));
    } else if k >= 2 {
      events := GapLetsTwoIn(d, k, ok);
    } else {
      events := SlowFailureForgetsSuccess(d, k, ok, Response(500, Json("")));
    }
  }

  /** Runs that keep the conditions have one success per day, all of them, if and only if handlers end within the
      60 s of their mark, no two requests are between lookup and mark at once, and only JSON bodies are sent; or
      else nothing is executed at all. */
  lemma OneSuccessPerDayIff(d: nat, k: nat, anyBody: bool)
    ensures (forall events :: !Breach(d, k, anyBody, events)) <==> Sound(d, k, anyBody) || k == 0 || d == 0
  {
    if Sound(d, k, anyBody) || k == 0 || d == 0 {
      forall events | Breach(d, k, anyBody, events) ensures false {
        AtMostOneSuccess(d, k, anyBody, events);
      }
    } else {
      var events := Unsound(d, k, anyBody);
      assert Breach(d, k, anyBody, events);
    }
  }
}
