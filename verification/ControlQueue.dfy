/**
 * Accepted camera controls until confirmation or a visible failure. One step is
 * the code between two awaits: submission, a worker's start, the route check and
 * client call, the operation's reply, timeout or error, cancellation, close.
 */
module ControlQueue {
  import opened Basics

  type Peer = string

  datatype Reason = Expired | Cancelled | RouteChanged | TimedOut | Failed

  /** The two terminal callbacks; `dispatched` tells whether a write may have been sent. */
  datatype Outcome = Confirmed | Failure(reason: Reason, dispatched: bool)

  /** A callback with the time and the closed flag at the moment it was made. */
  datatype Notice = Notice(outcome: Outcome, closed: bool, at: int)

  /** `calls` counts invocations of the gateway client for this request. */
  datatype Request = Request(
    peer: Peer, serial: string, action: string,
    submitted: int, expires: int, started: bool,
    calls: nat, notices: seq<Notice>)

  /**
   * A worker before its first resumption, awaiting its head request's operation
   * (before or after the client call), or cancelled before it ran any code.
   */
  datatype Phase = Starting | Waiting(called: bool) | Dead

  /** Requests are named by their submission number; queues hold those numbers. */
  datatype State = State(
    requests: seq<Request>,
    queues: map<Peer, seq<nat>>,
    workers: map<Peer, Phase>,
    closed: bool,
    finished: bool,
    now: int,
    startLog: seq<nat>)

  datatype Limits = Limits(capacity: nat, lifetime: nat)

  datatype Event =
    | Submit(peer: Peer, serial: string, action: string, created: bool)
    | Launch(peer: Peer)
    | Dispatch(peer: Peer, routeOk: bool)
    | Reply(peer: Peer, answered: Option<string>)
    | OperationError(peer: Peer)
    | Timeout(peer: Peer)
    | Cancel(peer: Peer)
    | CloseBegin
    | CloseEnd
    | Tick(to: int)

  /** Outstanding requests over all peers, active ones included. */
  ghost function Load(queues: map<Peer, seq<nat>>): nat
    decreases |queues|
  {
    if queues == map[] then 0 else
      var p :| p in queues;
      |queues[p]| + Load(queues - {p})
  }

  predicate Queued(s: State, id: nat) {
    id < |s.requests| && s.requests[id].peer in s.queues && id in s.queues[s.requests[id].peer]
  }

  predicate Pending(s: State, serial: string, action: string) {
    exists id | 0 <= id < |s.requests| :: Queued(s, id) && s.requests[id].serial == serial && s.requests[id].action == action
  }

  function Noted(s: State, r: Request, o: Outcome): Request {
    r.(notices := r.notices + [Notice(o, s.closed, s.now)])
  }

  function HasHead(s: State, p: Peer): bool {
    p in s.queues && s.queues[p] != [] && s.queues[p][0] < |s.requests|
  }

  /** Publish the head's outcome and take it off its queue. */
  function Resolve(s: State, p: Peer, o: Outcome): State {
    if !HasHead(s, p) then s else
      var id := s.queues[p][0];
      s.(requests := s.requests[id := Noted(s, s.requests[id], o)], queues := s.queues[p := s.queues[p][1..]])
  }

  /** Every listed request is reported as cancelled, with its own dispatch flag when `asStarted`. */
  function CancelAll(s: State, ids: seq<nat>, asStarted: bool): seq<Request> {
    seq(|s.requests|, i requires 0 <= i < |s.requests| =>
      if i in ids then Noted(s, s.requests[i], Failure(Cancelled, asStarted && s.requests[i].started)) else s.requests[i])
  }

  /** The worker's outer `finally`. */
  function Exit(s: State, p: Peer): State {
    if p !in s.queues then s else
      s.(requests := CancelAll(s, s.queues[p], false), queues := s.queues - {p}, workers := s.workers - {p})
  }

  /** The worker's loop from its test to its next await or its end. */
  function Loop(s: State, p: Peer): State
    decreases if p in s.queues then |s.queues[p]| else 0
  {
    if !HasHead(s, p) || s.closed then Exit(s, p)
    else
      var id := s.queues[p][0];
      if s.requests[id].expires - s.now <= 0 then Loop(Resolve(s, p, Failure(Expired, false)), p)
      else s.(requests := s.requests[id := s.requests[id].(started := true)],
              workers := s.workers[p := Waiting(false)],
              startLog := s.startLog + [id])
  }

  /** Accepting, refusing for closure or capacity, or rolling back when no task can be created. */
  ghost function SubmitStep(l: Limits, s: State, peer: Peer, serial: string, action: string, created: bool): State {
    if s.closed || Load(s.queues) >= l.capacity then s
    else if peer !in s.workers && !created then s.(queues := s.queues - {peer})
    else
      var queue := if peer in s.queues then s.queues[peer] else [];
      var r := Request(peer, serial, action, s.now, s.now + l.lifetime, false, 0, []);
      s.(requests := s.requests + [r],
         queues := s.queues[peer := queue + [|s.requests|]],
         workers := if peer in s.workers then s.workers else s.workers[peer := Starting])
  }

  /** `execute`: the route check just before the only client call. */
  function DispatchStep(s: State, p: Peer, routeOk: bool): State {
    if !HasHead(s, p) || p !in s.workers || s.workers[p] != Waiting(false) then s
    else if !routeOk then Loop(Resolve(s, p, Failure(RouteChanged, false)), p)
    else
      var id := s.queues[p][0];
      s.(requests := s.requests[id := s.requests[id].(calls := s.requests[id].calls + 1)],
         workers := s.workers[p := Waiting(true)])
  }

  /** What a reply from the device with serial `answered`, if it names one, means for the head request. */
  function AnswerOf(s: State, p: Peer, answered: Option<string>): Outcome {
    if !HasHead(s, p) || answered != Some(s.requests[s.queues[p][0]].serial) then Failure(Failed, true)
    else if s.closed then Failure(Cancelled, true)
    else Confirmed
  }

  function ReplyStep(s: State, p: Peer, answered: Option<string>): State {
    if p !in s.workers || s.workers[p] != Waiting(true) then s else Loop(Resolve(s, p, AnswerOf(s, p, answered)), p)
  }

  function CancelStep(s: State, p: Peer): State {
    if p !in s.workers then s
    else
      match s.workers[p]
      case Starting => s.(workers := s.workers[p := Dead])
      case Waiting(_) => Exit(Resolve(s, p, Failure(Cancelled, true)), p)
      case Dead => s
  }

  /** After every worker has ended, `close` reports whatever is still queued. */
  function CloseEndStep(s: State): State {
    if !s.closed || (exists p | p in s.workers :: s.workers[p] != Dead) then s
    else
      s.(requests := seq(|s.requests|, i requires 0 <= i < |s.requests| =>
           if Queued(s, i) then Noted(s, s.requests[i], Failure(Cancelled, s.requests[i].started)) else s.requests[i]),
         queues := map[], workers := map[], finished := true)
  }

  ghost function Step(l: Limits, s: State, ev: Event): State {
    match ev
    case Submit(peer, serial, action, created) => SubmitStep(l, s, peer, serial, action, created)
    case Launch(p) => if p in s.workers && s.workers[p] == Starting then Loop(s, p) else s
    case Dispatch(p, routeOk) => DispatchStep(s, p, routeOk)
    case Reply(p, answered) => ReplyStep(s, p, answered)
    case OperationError(p) =>
      if p in s.workers && s.workers[p] == Waiting(true) then Loop(Resolve(s, p, Failure(Failed, true)), p) else s
    case Timeout(p) =>
      if p in s.workers && s.workers[p].Waiting? then Loop(Resolve(s, p, Failure(TimedOut, true)), p) else s
    case Cancel(p) => CancelStep(s, p)
    case CloseBegin => s.(closed := true)
    case CloseEnd => CloseEndStep(s)
    case Tick(to) => if to > s.now then s.(now := to) else s
  }

  const INITIAL: State := State([], map[], map[], false, false, 0, [])

  ghost function Run(l: Limits, evs: seq<Event>): State
    decreases |evs|
  {
    if evs == [] then INITIAL else Step(l, Run(l, evs[..|evs| - 1]), evs[|evs| - 1])
  }

  // ---------------------------------------------------------------- invariant

  /** One request: resolved exactly when off its queue, and truthful about dispatch. */
  ghost predicate RequestOk(s: State, id: nat)
    requires id < |s.requests|
  {
    var r := s.requests[id];
    && |r.notices| == (if Queued(s, id) then 0 else 1)
    && r.calls <= 1 && (r.calls == 1 ==> r.started)
    && (r.notices != [] ==>
          && (r.notices[0].outcome.Confirmed? ==> r.calls == 1 && !r.notices[0].closed)
          && (r.notices[0].outcome.Failure? && !r.notices[0].outcome.dispatched ==> r.calls == 0))
  }

  /** A queue in submission order, holding only its own peer's requests. */
  ghost predicate QueueOk(s: State, p: Peer)
    requires p in s.queues
  {
    var q := s.queues[p];
    && (forall i | 0 <= i < |q| :: q[i] < |s.requests| && s.requests[q[i]].peer == p)
    && (forall i, j | 0 <= i < j < |q| :: q[i] < q[j])
  }

  predicate Idle(s: State, id: nat) {
    id < |s.requests| ==> !s.requests[id].started && s.requests[id].calls == 0
  }

  /** Only the head is in flight, and the worker's phase says how far it got. */
  ghost predicate PeerOk(s: State, p: Peer) {
    && p in s.queues && p in s.workers && HasHead(s, p)
    && var q := s.queues[p]; var head := s.requests[q[0]];
       && (forall i | 1 <= i < |q| :: Idle(s, q[i]))
       && (head.started <==> s.workers[p].Waiting?)
       && head.calls == (if s.workers[p] == Waiting(true) then 1 else 0)
  }

  /** Operations of one peer start in submission order, each at most once. */
  ghost predicate LogOk(s: State) {
    && (forall i | 0 <= i < |s.startLog| :: s.startLog[i] < |s.requests| && s.requests[s.startLog[i]].started)
    && (forall i, j | 0 <= i < j < |s.startLog| ::
          s.requests[s.startLog[i]].peer == s.requests[s.startLog[j]].peer ==> s.startLog[i] < s.startLog[j])
    && (forall i, id | 0 <= i < |s.startLog| && 0 <= id < |s.requests| ::
          Queued(s, id) && !s.requests[id].started && s.requests[id].peer == s.requests[s.startLog[i]].peer ==>
          s.startLog[i] < id)
  }

  ghost predicate ClockOk(l: Limits, s: State) {
    && (forall i | 0 <= i < |s.requests| ::
          s.requests[i].expires == s.requests[i].submitted + l.lifetime && s.requests[i].submitted <= s.now)
    && (forall i, j | 0 <= i <= j < |s.requests| :: s.requests[i].submitted <= s.requests[j].submitted)
  }

  ghost predicate Base(l: Limits, s: State) {
    && (forall id | 0 <= id < |s.requests| :: RequestOk(s, id))
    && (forall p | p in s.queues :: QueueOk(s, p))
    && LogOk(s)
    && ClockOk(l, s)
    && s.queues.Keys == s.workers.Keys
    && Load(s.queues) <= l.capacity
    && (s.finished ==> s.closed && s.queues == map[])
  }

  ghost predicate Inv(l: Limits, s: State) {
    Base(l, s) && forall p | p in s.queues :: PeerOk(s, p)
  }

  /** Inside peer `p`'s worker, between two requests. */
  ghost predicate Between(l: Limits, s: State, p: Peer) {
    && Base(l, s)
    && p in s.queues && (forall i | 0 <= i < |s.queues[p]| :: Idle(s, s.queues[p][i]))
    && (forall q | q in s.queues && q != p :: PeerOk(s, q))
  }

  // ------------------------------------------------------------------- lemmas

  lemma {:induction false} LoadPick(queues: map<Peer, seq<nat>>, p: Peer)
    requires p in queues
    ensures Load(queues) == |queues[p]| + Load(queues - {p})
    decreases |queues|
  {
    var q :| q in queues && Load(queues) == |queues[q]| + Load(queues - {q});
    if q != p {
      LoadPick(queues - {q}, p);
      LoadPick(queues - {p}, q);
      assert queues - {q} - {p} == queues - {p} - {q};
    }
  }

  lemma {:induction false} LoadUpdate(queues: map<Peer, seq<nat>>, p: Peer, q: seq<nat>)
    ensures Load(queues[p := q]) == |q| + Load(queues - {p})
    ensures Load(queues) == Load(queues - {p}) + if p in queues then |queues[p]| else 0
  {
    LoadPick(queues[p := q], p);
    assert queues[p := q] - {p} == queues - {p};
    if p in queues { LoadPick(queues, p); } else { assert queues - {p} == queues; }
  }

  lemma {:induction false} ResolveLog(l: Limits, s: State, p: Peer, o: Outcome)
    requires LogOk(s) && ClockOk(l, s) && HasHead(s, p)
    requires forall id | 0 <= id < |s.requests| && id != s.queues[p][0] :: Queued(Resolve(s, p, o), id) == Queued(s, id)
    requires !Queued(Resolve(s, p, o), s.queues[p][0])
    ensures LogOk(Resolve(s, p, o)) && ClockOk(l, Resolve(s, p, o))
  {}

  lemma {:induction false} ResolveQueued(s: State, p: Peer, o: Outcome)
    requires HasHead(s, p) && QueueOk(s, p)
    ensures var head := s.queues[p][0]; var s' := Resolve(s, p, o);
      && Queued(s, head) && !Queued(s', head) && QueueOk(s', p)
      && forall id | 0 <= id < |s.requests| && id != head :: Queued(s', id) == Queued(s, id)
  {
    var q, head := s.queues[p], s.queues[p][0];
    assert head !in q[1..];
    forall id | 0 <= id < |s.requests| && id != head ensures Queued(Resolve(s, p, o), id) == Queued(s, id) {
      if id in q { assert id in q[1..]; }
    }
  }

  /** Resolving the head touches one request and one queue. */
  lemma {:induction false} ResolveBase(l: Limits, s: State, p: Peer, o: Outcome)
    requires Base(l, s) && HasHead(s, p)
    requires var r := s.requests[s.queues[p][0]];
      && (o.Confirmed? ==> r.calls == 1 && !s.closed)
      && (o.Failure? && !o.dispatched ==> r.calls == 0)
    ensures Base(l, Resolve(s, p, o))
  {
    var s' := Resolve(s, p, o);
    assert QueueOk(s, p);
    ResolveQueued(s, p, o);
    LoadUpdate(s.queues, p, s.queues[p][1..]);
    ResolveLog(l, s, p, o);
    hide LogOk, ClockOk, Load, QueueOk, Queued;
    forall id | 0 <= id < |s'.requests| ensures RequestOk(s', id) { assert RequestOk(s, id); }
    forall x | x in s'.queues && x != p ensures QueueOk(s', x) { ResolveOther(s, p, o, x); }
  }

  lemma {:induction false} ResolveOther(s: State, p: Peer, o: Outcome, x: Peer)
    requires HasHead(s, p) && x in s.queues && x != p && QueueOk(s, x)
    ensures QueueOk(Resolve(s, p, o), x)
  {}

  lemma {:induction false} ResolvePeers(l: Limits, s: State, p: Peer, o: Outcome)
    requires Base(l, s) && HasHead(s, p)
    requires forall x | x in s.queues && x != p :: PeerOk(s, x)
    requires forall i | 1 <= i < |s.queues[p]| :: Idle(s, s.queues[p][i])
    ensures var s' := Resolve(s, p, o);
      && (forall x | x in s'.queues && x != p :: PeerOk(s', x))
      && (forall i | 0 <= i < |s'.queues[p]| :: Idle(s', s'.queues[p][i]))
  {
    var s' := Resolve(s, p, o);
    var head := s.queues[p][0];
    assert QueueOk(s, p);
    forall x | x in s'.queues && x != p ensures PeerOk(s', x) {
      assert PeerOk(s, x) && QueueOk(s, x);
      forall i | 0 <= i < |s.queues[x]| ensures s.queues[x][i] != head { }
    }
  }

  lemma {:induction false} ResolveBetween(l: Limits, s: State, p: Peer, o: Outcome)
    requires HasHead(s, p) && (Inv(l, s) || Between(l, s, p))
    requires var r := s.requests[s.queues[p][0]];
      && (o.Confirmed? ==> r.calls == 1 && !s.closed)
      && (o.Failure? && !o.dispatched ==> r.calls == 0)
    ensures Between(l, Resolve(s, p, o), p)
  {
    if Inv(l, s) { assert PeerOk(s, p); }
    ResolveBase(l, s, p, o);
    ResolvePeers(l, s, p, o);
  }

  lemma {:induction false} ExitRequest(s: State, p: Peer, id: nat)
    requires p in s.queues && QueueOk(s, p) && id < |s.requests| && RequestOk(s, id)
    requires forall i | 0 <= i < |s.queues[p]| :: Idle(s, s.queues[p][i])
    ensures RequestOk(Exit(s, p), id)
  {
    assert id in s.queues[p] <==> Queued(s, id) && s.requests[id].peer == p;
    if id in s.queues[p] {
      var i :| 0 <= i < |s.queues[p]| && s.queues[p][i] == id;
      assert Idle(s, s.queues[p][i]);
    }
  }

  lemma {:induction false} ExitRequests(l: Limits, s: State, p: Peer)
    requires Between(l, s, p)
    ensures forall id | 0 <= id < |s.requests| :: RequestOk(Exit(s, p), id)
  {
    assert |Exit(s, p).requests| == |s.requests|;
    hide PeerOk, LogOk, ClockOk, Load, RequestOk, QueueOk, Idle, Queued, Exit;
    forall id | 0 <= id < |s.requests| ensures RequestOk(Exit(s, p), id) {
      ExitRequest(s, p, id);
    }
  }

  lemma {:induction false} ExitPeers(l: Limits, s: State, p: Peer)
    requires Between(l, s, p)
    ensures forall x | x in Exit(s, p).queues :: QueueOk(Exit(s, p), x) && PeerOk(Exit(s, p), x)
  {
    hide RequestOk, LogOk, ClockOk, Load;
    var s' := Exit(s, p);
    assert QueueOk(s, p);
    forall x | x in s'.queues ensures QueueOk(s', x) && PeerOk(s', x) {
      assert QueueOk(s, x) && PeerOk(s, x);
      forall i | 0 <= i < |s.queues[x]| ensures s.queues[x][i] !in s.queues[p] { }
    }
  }

  lemma {:induction false} ExitLog(l: Limits, s: State, p: Peer)
    requires Base(l, s) && p in s.queues
    ensures LogOk(Exit(s, p)) && ClockOk(l, Exit(s, p))
  {
    hide RequestOk, QueueOk, Load;
    var s' := Exit(s, p);
    forall id | 0 <= id < |s.requests| && Queued(s', id) ensures Queued(s, id) { }
  }

  lemma {:induction false} ExitInv(l: Limits, s: State, p: Peer)
    requires Between(l, s, p)
    ensures Inv(l, Exit(s, p))
  {
    ExitRequests(l, s, p);
    ExitPeers(l, s, p);
    ExitLog(l, s, p);
    LoadUpdate(s.queues, p, []);
    hide RequestOk, QueueOk, PeerOk, LogOk, ClockOk, Load;
  }

  /** `s'` differs from `s` in the progress of `p`'s head request and `p`'s phase alone. */
  ghost predicate Touches(s: State, s': State, p: Peer) {
    && HasHead(s, p) && p in s.workers && p in s'.workers
    && var id := s.queues[p][0];
       && s' == s.(requests := s'.requests, workers := s.workers[p := s'.workers[p]], startLog := s'.startLog)
       && |s'.requests| == |s.requests|
       && s'.requests == s.requests[id := s'.requests[id]]
       && s'.requests[id] == s.requests[id].(started := s'.requests[id].started, calls := s'.requests[id].calls)
  }

  lemma {:induction false} TouchRequests(s: State, s': State, p: Peer, x: nat)
    requires Touches(s, s', p) && QueueOk(s, p) && x < |s.requests| && RequestOk(s, x)
    requires var r := s'.requests[s.queues[p][0]]; r.calls <= 1 && (r.calls == 1 ==> r.started)
    ensures RequestOk(s', x)
  {
    assert Queued(s', x) == Queued(s, x);
    if x == s.queues[p][0] { assert Queued(s, x); }
  }

  lemma {:induction false} TouchPeers(s: State, s': State, p: Peer, x: Peer)
    requires Touches(s, s', p) && QueueOk(s, p) && x in s.queues && QueueOk(s, x)
    requires x != p ==> PeerOk(s, x)
    ensures QueueOk(s', x) && (x != p ==> PeerOk(s', x))
  {
    if x != p {
      forall i | 0 <= i < |s.queues[x]| ensures s.queues[x][i] != s.queues[p][0] { }
    }
  }

  lemma {:induction false} TouchClock(l: Limits, s: State, s': State, p: Peer)
    requires ClockOk(l, s) && Touches(s, s', p)
    ensures ClockOk(l, s')
  {}

  lemma {:induction false} TouchInv(l: Limits, s: State, s': State, p: Peer)
    requires Base(l, s) && Touches(s, s', p)
    requires forall x | x in s.queues && x != p :: PeerOk(s, x)
    requires var r := s'.requests[s.queues[p][0]]; r.calls <= 1 && (r.calls == 1 ==> r.started)
    requires PeerOk(s', p) && LogOk(s')
    ensures Inv(l, s')
  {
    TouchClock(l, s, s', p);
    TouchFrame(s, s', p);
    hide RequestOk, PeerOk, LogOk, ClockOk, Load, QueueOk, HasHead, Queued, Idle, Touches;
    forall x | 0 <= x < |s.requests| ensures RequestOk(s', x) { TouchRequests(s, s', p, x); }
    forall x | x in s.queues ensures QueueOk(s', x) { TouchPeers(s, s', p, x); }
    forall x | x in s.queues && x != p ensures PeerOk(s', x) { TouchPeers(s, s', p, x); }
  }

  lemma {:induction false} TouchFrame(s: State, s': State, p: Peer)
    requires Touches(s, s', p)
    ensures s'.queues == s.queues && |s'.requests| == |s.requests| && s'.finished == s.finished && s'.closed == s.closed
    ensures p in s.queues && p in s'.workers && (s.queues.Keys == s.workers.Keys ==> s'.queues.Keys == s'.workers.Keys)
  {}

  lemma {:induction false} StartInv(l: Limits, s: State, p: Peer)
    requires Between(l, s, p) && HasHead(s, p)
    ensures var id := s.queues[p][0];
      Inv(l, s.(requests := s.requests[id := s.requests[id].(started := true)],
                workers := s.workers[p := Waiting(false)],
                startLog := s.startLog + [id]))
  {
    var id := s.queues[p][0];
    var s' := s.(requests := s.requests[id := s.requests[id].(started := true)],
                 workers := s.workers[p := Waiting(false)], startLog := s.startLog + [id]);
    StartLogOk(l, s, p);
    hide LogOk, ClockOk, Load, RequestOk;
    assert QueueOk(s, p);
    forall i | 0 <= i < |s.queues[p]| ensures i > 0 ==> Idle(s', s.queues[p][i]) { assert Idle(s, s.queues[p][i]); }
    TouchInv(l, s, s', p);
  }

  lemma {:induction false} StartLogOk(l: Limits, s: State, p: Peer)
    requires Between(l, s, p) && HasHead(s, p)
    ensures var id := s.queues[p][0];
      LogOk(s.(requests := s.requests[id := s.requests[id].(started := true)],
               workers := s.workers[p := Waiting(false)],
               startLog := s.startLog + [id]))
  {
    hide RequestOk, PeerOk, ClockOk, Load;
    var id := s.queues[p][0];
    var s' := s.(requests := s.requests[id := s.requests[id].(started := true)],
                 workers := s.workers[p := Waiting(false)], startLog := s.startLog + [id]);
    assert QueueOk(s, p) && Idle(s, s.queues[p][0]) && Queued(s, id);
    forall x | 0 <= x < |s.requests| ensures Queued(s', x) == Queued(s, x) { }
    forall x | 0 <= x < |s.requests| && Queued(s, x) && s.requests[x].peer == p && x != id ensures id < x {
      var i :| 0 <= i < |s.queues[p]| && s.queues[p][i] == x;
    }
  }

  lemma {:induction false} LoopInv(l: Limits, s: State, p: Peer)
    requires Between(l, s, p)
    ensures Inv(l, Loop(s, p))
    decreases |s.queues[p]|
  {
    if !HasHead(s, p) || s.closed {
      ExitInv(l, s, p);
    } else {
      var id := s.queues[p][0];
      assert Idle(s, s.queues[p][0]);
      if s.requests[id].expires - s.now <= 0 {
        ResolveBetween(l, s, p, Failure(Expired, false));
        LoopInv(l, Resolve(s, p, Failure(Expired, false)), p);
      } else {
        StartInv(l, s, p);
      }
    }
  }

  lemma {:induction false} FinishInv(l: Limits, s: State, p: Peer, o: Outcome)
    requires Inv(l, s) && p in s.workers && s.workers[p].Waiting?
    requires o.Confirmed? ==> s.workers[p].called && !s.closed
    requires o.Failure? && !o.dispatched ==> !s.workers[p].called
    ensures Inv(l, Loop(Resolve(s, p, o), p)) && Inv(l, Exit(Resolve(s, p, o), p))
  {
    assert PeerOk(s, p);
    ResolveBetween(l, s, p, o);
    LoopInv(l, Resolve(s, p, o), p);
    ExitInv(l, Resolve(s, p, o), p);
  }

  lemma {:induction false} SubmitQueued(l: Limits, s: State, s': State, peer: Peer, r: Request)
    requires Base(l, s) && r.peer == peer
    requires s'.requests == s.requests + [r]
    requires s'.queues == s.queues[peer := (if peer in s.queues then s.queues[peer] else []) + [|s.requests|]]
    ensures forall x | 0 <= x < |s.requests| :: Queued(s', x) == Queued(s, x)
    ensures Queued(s', |s.requests|)
  {
    var queue := if peer in s.queues then s.queues[peer] else [];
    var id := |s.requests|;
    assert s'.queues[peer][|queue|] == id;
    if peer in s.queues { assert QueueOk(s, peer); }
    forall x | 0 <= x < id ensures Queued(s', x) == Queued(s, x) {
      if s.requests[x].peer == peer { assert x in queue + [id] <==> x in queue; }
    }
  }

  lemma {:induction false} SubmitPeers(l: Limits, s: State, s': State, peer: Peer, r: Request, x: Peer)
    requires Inv(l, s) && r.peer == peer && !r.started && r.calls == 0
    requires s'.requests == s.requests + [r]
    requires s'.queues == s.queues[peer := (if peer in s.queues then s.queues[peer] else []) + [|s.requests|]]
    requires s'.workers == if peer in s.workers then s.workers else s.workers[peer := Starting]
    requires x in s'.queues
    ensures QueueOk(s', x) && PeerOk(s', x)
  {
    hide RequestOk, LogOk, ClockOk, Load;
    if x in s.queues { assert QueueOk(s, x) && PeerOk(s, x); }
  }

  lemma {:induction false} SubmitRequest(s: State, s': State, r: Request, x: nat)
    requires s'.requests == s.requests + [r] && x <= |s.requests|
    requires Queued(s', |s.requests|) && r.notices == [] && r.calls == 0
    requires x < |s.requests| ==> RequestOk(s, x) && Queued(s', x) == Queued(s, x)
    ensures RequestOk(s', x)
  {}

  lemma {:induction false} SubmitLog(l: Limits, s: State, s': State, r: Request)
    requires LogOk(s) && ClockOk(l, s) && s'.requests == s.requests + [r]
    requires s'.startLog == s.startLog && s'.now == s.now
    requires r.submitted == s.now && r.expires == s.now + l.lifetime
    requires forall x | 0 <= x < |s.requests| :: Queued(s', x) == Queued(s, x)
    ensures LogOk(s') && ClockOk(l, s')
  {}

  lemma {:induction false} AcceptInv(l: Limits, s: State, s': State, peer: Peer, r: Request)
    requires Inv(l, s) && !s.closed && Load(s.queues) < l.capacity
    requires r == Request(peer, r.serial, r.action, s.now, s.now + l.lifetime, false, 0, [])
    requires s' == s.(requests := s.requests + [r],
      queues := s.queues[peer := (if peer in s.queues then s.queues[peer] else []) + [|s.requests|]],
      workers := if peer in s.workers then s.workers else s.workers[peer := Starting])
    ensures Inv(l, s')
  {
    SubmitQueued(l, s, s', peer, r);
    SubmitLoad(l, s, s', peer);
    hide RequestOk, LogOk, ClockOk, Load, QueueOk, PeerOk, Queued, Idle, HasHead;
    SubmitLog(l, s, s', r);
    forall x | 0 <= x <= |s.requests| ensures RequestOk(s', x) { SubmitRequest(s, s', r, x); }
    forall x | x in s'.queues ensures QueueOk(s', x) && PeerOk(s', x) { SubmitPeers(l, s, s', peer, r, x); }
  }

  lemma {:induction false} SubmitLoad(l: Limits, s: State, s': State, peer: Peer)
    requires Load(s.queues) < l.capacity && s.queues.Keys == s.workers.Keys
    requires s'.queues == s.queues[peer := (if peer in s.queues then s.queues[peer] else []) + [|s.requests|]]
    requires s'.workers == if peer in s.workers then s.workers else s.workers[peer := Starting]
    ensures Load(s'.queues) <= l.capacity && s'.queues.Keys == s'.workers.Keys
  {
    LoadUpdate(s.queues, peer, s'.queues[peer]);
  }

  lemma {:induction false} SubmitInv(l: Limits, s: State, peer: Peer, serial: string, action: string, created: bool)
    requires Inv(l, s)
    ensures Inv(l, SubmitStep(l, s, peer, serial, action, created))
  {
    hide Inv, Load;
    var s' := SubmitStep(l, s, peer, serial, action, created);
    if s.closed || Load(s.queues) >= l.capacity {
    } else if peer !in s.workers && !created {
      QueuesHaveWorkers(l, s);
      assert s.queues - {peer} == s.queues;
    } else {
      AcceptInv(l, s, s', peer, s'.requests[|s.requests|]);
    }
  }

  lemma {:induction false} QueuesHaveWorkers(l: Limits, s: State)
    requires Inv(l, s)
    ensures s.queues.Keys == s.workers.Keys
  {}

  lemma {:induction false} CallInv(l: Limits, s: State, p: Peer)
    requires Inv(l, s) && p in s.workers && s.workers[p] == Waiting(false)
    ensures Inv(l, DispatchStep(s, p, true))
  {
    hide ClockOk, Load, RequestOk;
    var s' := DispatchStep(s, p, true);
    assert PeerOk(s, p) && QueueOk(s, p);
    forall i | 1 <= i < |s.queues[p]| ensures Idle(s', s.queues[p][i]) { assert Idle(s, s.queues[p][i]); }
    CallLog(s, s', p);
    TouchInv(l, s, s', p);
  }

  lemma {:induction false} CallLog(s: State, s': State, p: Peer)
    requires LogOk(s) && Touches(s, s', p) && s'.startLog == s.startLog
    requires s'.requests[s.queues[p][0]].started == s.requests[s.queues[p][0]].started
    ensures LogOk(s')
  {
    forall x | 0 <= x < |s.requests| ensures Queued(s', x) == Queued(s, x) { }
  }

  lemma {:induction false} CloseEndRequest(l: Limits, s: State, x: nat)
    requires Inv(l, s) && CloseEndStep(s) != s && x < |s.requests|
    ensures RequestOk(CloseEndStep(s), x)
    ensures CloseEndStep(s).requests[x] == s.requests[x].(notices := CloseEndStep(s).requests[x].notices)
  {
    hide LogOk, ClockOk, Load;
    assert RequestOk(s, x);
    if Queued(s, x) { NotCalled(l, s, x); }
  }

  lemma {:induction false} CloseEndInv(l: Limits, s: State)
    requires Inv(l, s)
    ensures Inv(l, CloseEndStep(s))
  {
    var s' := CloseEndStep(s);
    if s' != s {
      forall x | 0 <= x < |s.requests|
        ensures RequestOk(s', x) && s'.requests[x] == s.requests[x].(notices := s'.requests[x].notices)
      { CloseEndRequest(l, s, x); }
      hide RequestOk, PeerOk, QueueOk, CloseEndStep;
      EmptyQueues(l, s, s');
    }
  }

  lemma {:induction false} EmptyQueues(l: Limits, s: State, s': State)
    requires LogOk(s) && ClockOk(l, s) && s'.queues == map[] && s'.startLog == s.startLog && s'.now == s.now
    requires |s'.requests| == |s.requests|
    requires forall x | 0 <= x < |s.requests| :: s'.requests[x] == s.requests[x].(notices := s'.requests[x].notices)
    ensures LogOk(s') && ClockOk(l, s') && Load(s'.queues) == 0
  {}

  /** With no worker waiting, nothing queued has been dispatched. */
  lemma {:induction false} NotCalled(l: Limits, s: State, x: nat)
    requires Inv(l, s) && Queued(s, x)
    requires forall p | p in s.workers :: !s.workers[p].Waiting?
    ensures Idle(s, x)
  {
    var p := s.requests[x].peer;
    assert PeerOk(s, p);
    var i :| 0 <= i < |s.queues[p]| && s.queues[p][i] == x;
    if i > 0 { assert Idle(s, s.queues[p][i]); }
  }

  lemma {:induction false} StepInv(l: Limits, s: State, ev: Event)
    requires Inv(l, s)
    ensures Inv(l, Step(l, s, ev))
  {
    match ev {
      case Submit(peer, serial, action, created) => SubmitInv(l, s, peer, serial, action, created);
      case Launch(p) =>
        if p in s.workers && s.workers[p] == Starting {
          assert PeerOk(s, p);
          assert Idle(s, s.queues[p][0]);
          LoopInv(l, s, p);
        }
      case Dispatch(p, routeOk) =>
        if p in s.workers && s.workers[p] == Waiting(false) {
          if routeOk { CallInv(l, s, p); } else { FinishInv(l, s, p, Failure(RouteChanged, false)); }
        }
      case Reply(p, answered) =>
        if p in s.workers && s.workers[p] == Waiting(true) { FinishInv(l, s, p, AnswerOf(s, p, answered)); }
      case OperationError(p) =>
        if p in s.workers && s.workers[p] == Waiting(true) { FinishInv(l, s, p, Failure(Failed, true)); }
      case Timeout(p) =>
        if p in s.workers && s.workers[p].Waiting? { FinishInv(l, s, p, Failure(TimedOut, true)); }
      case Cancel(p) => CancelInv(l, s, p);
      case CloseBegin => ClockInv(l, s, s.(closed := true));
      case CloseEnd => CloseEndInv(l, s);
      case Tick(to) => if to > s.now { ClockInv(l, s, s.(now := to)); }
    }
  }

  lemma {:induction false} CancelInv(l: Limits, s: State, p: Peer)
    requires Inv(l, s)
    ensures Inv(l, CancelStep(s, p))
  {
    if p in s.workers {
      if s.workers[p].Waiting? {
        FinishInv(l, s, p, Failure(Cancelled, true));
      } else if s.workers[p] == Starting {
        hide ClockOk, Load, RequestOk;
        var s' := CancelStep(s, p);
        assert PeerOk(s, p) && QueueOk(s, p);
        CallLog(s, s', p);
        assert PeerOk(s', p);
        assert RequestOk(s, s.queues[p][0]);
        TouchInv(l, s, s', p);
      }
    }
  }

  /** Closing and the passage of time change no request, queue or worker. */
  lemma {:induction false} ClockInv(l: Limits, s: State, s': State)
    requires Inv(l, s) && s'.now >= s.now && (s.closed ==> s'.closed)
    requires s' == s.(now := s'.now, closed := s'.closed)
    ensures Inv(l, s')
  {
    forall x | 0 <= x < |s.requests| ensures RequestOk(s', x) { assert RequestOk(s, x); }
    forall x | x in s'.queues ensures QueueOk(s', x) && PeerOk(s', x) { assert QueueOk(s, x) && PeerOk(s, x); }
  }

  lemma {:induction false} RunInv(l: Limits, evs: seq<Event>)
    ensures Inv(l, Run(l, evs))
    decreases |evs|
  {
    if evs != [] {
      RunInv(l, evs[..|evs| - 1]);
      StepInv(l, Run(l, evs[..|evs| - 1]), evs[|evs| - 1]);
    }
  }
}
