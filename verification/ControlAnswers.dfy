/**
 * Which step reports which outcome. The conditions speak of queues, phases, clocks and
 * the reply's own serial, and every callback of every run is traced to its step.
 */
module ControlAnswers {
  import opened Basics
  import opened ControlQueue
  import opened ControlTheorems

  /** `id` is the request that its peer's worker serves. */
  predicate Heads(s: State, id: nat) {
    Queued(s, id) && s.queues[s.requests[id].peer][0] == id && s.requests[id].peer in s.workers
  }

  predicate Serving(s: State, id: nat) { Heads(s, id) && s.workers[s.requests[id].peer].Waiting? }

  /** Its client call is under way. */
  predicate Called(s: State, id: nat) { Heads(s, id) && s.workers[s.requests[id].peer] == Waiting(true) }

  /** This step ends the service of the peer's head request and lets the worker go on. */
  predicate Ends(s: State, ev: Event, p: Peer) {
    && p in s.workers
    && match ev
       case Reply(q, _) => q == p && s.workers[p] == Waiting(true)
       case OperationError(q) => q == p && s.workers[p] == Waiting(true)
       case Timeout(q) => q == p && s.workers[p].Waiting?
       case Dispatch(q, routeOk) => q == p && !routeOk && s.workers[p] == Waiting(false)
       case _ => false
  }

  /** The worker comes back to its loop in this step, with the requests from `start` on still queued. */
  predicate Resumes(s: State, ev: Event, p: Peer, start: nat) {
    || (start == 0 && ev == Launch(p) && p in s.workers && s.workers[p] == Starting)
    || (start == 1 && Ends(s, ev, p))
  }

  predicate Late(s: State, id: nat) { id < |s.requests| && s.requests[id].expires <= s.now }

  /** This step reports `o` for request `id`. */
  ghost predicate Answers(s: State, ev: Event, id: nat, o: Outcome)
    requires id < |s.requests|
  {
    var r := s.requests[id];
    var p := r.peer;
    match o
    case Confirmed => Called(s, id) && ev == Reply(p, Some(r.serial)) && !s.closed
    case Failure(Failed, dispatched) =>
      dispatched && Called(s, id) && (ev == OperationError(p) || (ev.Reply? && ev.peer == p && ev.answered != Some(r.serial)))
    case Failure(TimedOut, dispatched) => dispatched && Serving(s, id) && ev == Timeout(p)
    case Failure(RouteChanged, dispatched) =>
      !dispatched && Serving(s, id) && !Called(s, id) && ev == Dispatch(p, false)
    case Failure(Expired, dispatched) => !dispatched && Queued(s, id) && !s.closed && Overtaken(s, ev, p, id)
    case Failure(Cancelled, true) => Serving(s, id) && (ev == Cancel(p) || (Called(s, id) && ev == Reply(p, Some(r.serial)) && s.closed))
    case Failure(Cancelled, false) =>
      Queued(s, id) && (Abandoned(s, ev, p, id) || (ev == CloseEnd && s.closed && forall q | q in s.workers :: s.workers[q] == Dead))
  }

  /** The worker reaches the request after its deadline, past others that were late as well. */
  ghost predicate Overtaken(s: State, ev: Event, p: Peer, id: nat) {
    exists start: nat, i: nat :: OvertakenFrom(s, ev, p, id, start, i)
  }

  ghost predicate OvertakenFrom(s: State, ev: Event, p: Peer, id: nat, start: nat, i: nat) {
    && p in s.queues && start <= i < |s.queues[p]| && s.queues[p][i] == id
    && Resumes(s, ev, p, start) && forall j | start <= j <= i :: Late(s, s.queues[p][j])
  }

  /** The worker ends before it reaches the request: it is cancelled, or it finds the queue closed. */
  ghost predicate Abandoned(s: State, ev: Event, p: Peer, id: nat) {
    exists start: nat, i: nat :: AbandonedFrom(s, ev, p, id, start, i)
  }

  ghost predicate AbandonedFrom(s: State, ev: Event, p: Peer, id: nat, start: nat, i: nat) {
    && p in s.queues && p in s.workers && start <= i < |s.queues[p]| && s.queues[p][i] == id
    && ((s.closed && Resumes(s, ev, p, start)) || (start == 1 && ev == Cancel(p) && s.workers[p].Waiting?))
  }

  // -------------------------------------------------------------- the worker loop

  /** What the loop reports for the request at place `i` of the queue it finds. */
  function LoopReports(s: State, p: Peer, i: nat): seq<Outcome>
    requires p in s.queues && i < |s.queues[p]|
  {
    if s.closed then [Failure(Cancelled, false)]
    else if forall j | 0 <= j <= i :: Late(s, s.queues[p][j]) then [Failure(Expired, false)]
    else []
  }

  function Outcomes(notices: seq<Notice>): seq<Outcome> {
    seq(|notices|, i requires 0 <= i < |notices| => notices[i].outcome)
  }

  lemma {:induction false} LoopElsewhere(s: State, p: Peer, id: nat)
    requires id < |s.requests| && (p in s.queues ==> id !in s.queues[p])
    ensures id < |Loop(s, p).requests| && Loop(s, p).requests[id].notices == s.requests[id].notices
    decreases if p in s.queues then |s.queues[p]| else 0
  {
    if HasHead(s, p) && !s.closed && s.requests[s.queues[p][0]].expires - s.now <= 0 {
      LoopElsewhere(Resolve(s, p, Failure(Expired, false)), p, id);
    }
  }

  lemma {:induction false} LoopAnswers(s: State, p: Peer, i: nat)
    requires p in s.queues && QueueOk(s, p) && i < |s.queues[p]| && s.requests[s.queues[p][i]].notices == []
    ensures var id := s.queues[p][i];
      id < |Loop(s, p).requests| && Outcomes(Loop(s, p).requests[id].notices) == LoopReports(s, p, i)
    decreases |s.queues[p]|
  {
    var id, head := s.queues[p][i], s.queues[p][0];
    if !s.closed && s.requests[head].expires - s.now <= 0 {
      var s' := Resolve(s, p, Failure(Expired, false));
      ResolveQueued(s, p, Failure(Expired, false));
      if i == 0 {
        LoopElsewhere(s', p, id);
      } else {
        LoopAnswers(s', p, i - 1);
        assert s'.queues[p] == s.queues[p][1..];
        LateShift(s, s', p, i);
      }
    }
  }

  lemma {:induction false} LateShift(s: State, s': State, p: Peer, i: nat)
    requires p in s.queues && p in s'.queues && 1 <= i < |s.queues[p]| && s'.queues[p] == s.queues[p][1..]
    requires |s'.requests| == |s.requests| && s'.now == s.now && s'.closed == s.closed && Late(s, s.queues[p][0])
    requires forall k | 0 <= k < |s.requests| :: s'.requests[k].expires == s.requests[k].expires
    ensures LoopReports(s', p, i - 1) == LoopReports(s, p, i)
  {
    assert forall j | 1 <= j < |s.queues[p]| :: s'.queues[p][j - 1] == s.queues[p][j];
    assert forall j | 0 <= j < |s'.queues[p]| :: s'.queues[p][j] == s.queues[p][j + 1];
  }

  // ----------------------------------------------------------------- one step

  /** The outcome with which `ev` ends the service of the head request. */
  function Verdict(s: State, ev: Event, p: Peer): Outcome {
    match ev
    case Reply(_, answered) => AnswerOf(s, p, answered)
    case OperationError(_) => Failure(Failed, true)
    case Timeout(_) => Failure(TimedOut, true)
    case _ => Failure(RouteChanged, false)
  }

  function AfterHead(s: State, p: Peer, i: nat): seq<Outcome>
    requires p in s.queues && 1 <= i < |s.queues[p]|
  {
    if s.closed then [Failure(Cancelled, false)]
    else if forall j | 1 <= j <= i :: Late(s, s.queues[p][j]) then [Failure(Expired, false)]
    else []
  }

  predicate AllEnded(s: State) { forall q | q in s.workers :: s.workers[q] == Dead }

  /** What a step reports for the queued request at place `i` of its queue. */
  function Reports(s: State, ev: Event, p: Peer, i: nat): seq<Outcome>
    requires p in s.queues && i < |s.queues[p]|
  {
    if Ends(s, ev, p) then if i == 0 then [Verdict(s, ev, p)] else AfterHead(s, p, i)
    else if ev == Launch(p) && p in s.workers && s.workers[p] == Starting then LoopReports(s, p, i)
    else if ev == Cancel(p) && p in s.workers && s.workers[p].Waiting? then [Failure(Cancelled, i == 0)]
    else if ev == CloseEnd && s.closed && AllEnded(s) then [Failure(Cancelled, false)]
    else []
  }

  /** `id` is at place `i` of its peer's queue, and has no callback yet. */
  predicate Placed(s: State, id: nat, i: nat) {
    && id < |s.requests| && s.requests[id].peer in s.queues
    && i < |s.queues[s.requests[id].peer]| && s.queues[s.requests[id].peer][i] == id && s.requests[id].notices == []
  }

  lemma {:induction false} FinishAnswers(s: State, p: Peer, o: Outcome, id: nat, i: nat)
    requires Placed(s, id, i) && s.requests[id].peer == p && QueueOk(s, p)
    ensures var s' := Loop(Resolve(s, p, o), p);
      id < |s'.requests| && Outcomes(s'.requests[id].notices) == if i == 0 then [o] else AfterHead(s, p, i)
  {
    hide Loop;
    var r := Resolve(s, p, o);
    ResolveQueued(s, p, o);
    if i == 0 {
      LoopElsewhere(r, p, id);
    } else {
      LoopAnswers(r, p, i - 1);
      assert forall j | 1 <= j < |s.queues[p]| :: r.queues[p][j - 1] == s.queues[p][j];
      assert forall j | 0 <= j < |r.queues[p]| :: r.queues[p][j] == s.queues[p][j + 1];
      assert forall k | 0 <= k < |s.requests| :: r.requests[k].expires == s.requests[k].expires;
    }
  }

  /** What happens to one peer's worker reports nothing for another peer's request. */
  lemma {:induction false} FinishElsewhere(s: State, q: Peer, o: Outcome, id: nat)
    requires id < |s.requests| && q != s.requests[id].peer && (q in s.queues ==> QueueOk(s, q))
    ensures var s' := Loop(Resolve(s, q, o), q); id < |s'.requests| && s'.requests[id].notices == s.requests[id].notices
    ensures var s' := Exit(Resolve(s, q, o), q); id < |s'.requests| && s'.requests[id].notices == s.requests[id].notices
    ensures var s' := Loop(s, q); id < |s'.requests| && s'.requests[id].notices == s.requests[id].notices
  {
    hide Loop;
    LoopElsewhere(Resolve(s, q, o), q, id);
    LoopElsewhere(s, q, id);
  }

  lemma {:induction false} CancelAnswers(s: State, p: Peer, id: nat, i: nat)
    requires Placed(s, id, i) && s.requests[id].peer == p && QueueOk(s, p)
    ensures var s' := Exit(Resolve(s, p, Failure(Cancelled, true)), p);
      id < |s'.requests| && Outcomes(s'.requests[id].notices) == [Failure(Cancelled, i == 0)]
  {
    var r := Resolve(s, p, Failure(Cancelled, true));
    ResolveQueued(s, p, Failure(Cancelled, true));
    if i > 0 { assert r.queues[p][i - 1] == id; }
  }

  lemma {:induction false} CloseAnswers(l: Limits, s: State, id: nat, i: nat)
    requires Inv(l, s) && Placed(s, id, i)
    ensures var s' := CloseEndStep(s);
      id < |s'.requests| && Outcomes(s'.requests[id].notices) == if s.closed && AllEnded(s) then [Failure(Cancelled, false)] else []
  {
    assert Queued(s, id);
    if s.closed && AllEnded(s) { NotCalled(l, s, id); }
  }

  lemma {:induction false} PlacedPeer(l: Limits, s: State, id: nat, i: nat)
    requires Inv(l, s) && Placed(s, id, i)
    ensures var p := s.requests[id].peer;
      && QueueOk(s, p) && p in s.workers && HasHead(s, p) && s.queues[p][0] < |s.requests|
      && forall q | q in s.queues :: QueueOk(s, q)
  {
    assert PeerOk(s, s.requests[id].peer);
  }

  lemma {:induction false} StepReports(l: Limits, s: State, ev: Event, id: nat, i: nat)
    requires Inv(l, s) && Placed(s, id, i)
    ensures var s' := Step(l, s, ev);
      id < |s'.requests| && Outcomes(s'.requests[id].notices) == Reports(s, ev, s.requests[id].peer, i)
  {
    hide Inv, Loop, Exit, Load, Resolve, AfterHead, LoopReports, CloseEndStep, QueueOk, AnswerOf;
    PlacedPeer(l, s, id, i);
    var p := s.requests[id].peer;
    match ev {
      case Launch(q) => if q == p { LoopAnswers(s, p, i); } else { FinishElsewhere(s, q, Confirmed, id); }
      case Dispatch(q, _) => PeerReports(s, q, Failure(RouteChanged, false), id, i);
      case Reply(q, answered) => PeerReports(s, q, AnswerOf(s, q, answered), id, i);
      case OperationError(q) => PeerReports(s, q, Failure(Failed, true), id, i);
      case Timeout(q) => PeerReports(s, q, Failure(TimedOut, true), id, i);
      case Cancel(q) => if q == p { CancelAnswers(s, p, id, i); } else { FinishElsewhere(s, q, Failure(Cancelled, true), id); }
      case CloseEnd => CloseAnswers(l, s, id, i);
      case _ =>
    }
  }

  lemma {:induction false} PeerReports(s: State, q: Peer, o: Outcome, id: nat, i: nat)
    requires Placed(s, id, i) && QueueOk(s, s.requests[id].peer) && (q in s.queues ==> QueueOk(s, q))
    ensures var s' := Loop(Resolve(s, q, o), q); id < |s'.requests|
    ensures var s' := Loop(Resolve(s, q, o), q); var outcomes := Outcomes(s'.requests[id].notices);
      outcomes == if q != s.requests[id].peer then [] else if i == 0 then [o] else AfterHead(s, q, i)
  {
    hide Loop, Resolve, AfterHead, QueueOk;
    if q == s.requests[id].peer { FinishAnswers(s, q, o, id, i); } else { FinishElsewhere(s, q, o, id); }
  }

  lemma {:induction false} PlaceIsUnique(s: State, id: nat, i: nat)
    requires Placed(s, id, i) && QueueOk(s, s.requests[id].peer)
    ensures Queued(s, id)
    ensures var q := s.queues[s.requests[id].peer]; forall j | 0 <= j < |q| && q[j] == id :: j == i
  {}

  lemma {:induction false} OvertakenIff(s: State, ev: Event, id: nat, i: nat)
    requires Placed(s, id, i) && QueueOk(s, s.requests[id].peer)
    ensures var p := s.requests[id].peer; var q := s.queues[p];
      Overtaken(s, ev, p, id) <==>
        || (Resumes(s, ev, p, 0) && forall j | 0 <= j <= i :: Late(s, q[j]))
        || (i >= 1 && Resumes(s, ev, p, 1) && forall j | 1 <= j <= i :: Late(s, q[j]))
  {
    hide Resumes, Late;
    PlaceIsUnique(s, id, i);
    var p := s.requests[id].peer;
    ResumesFrom(s, ev, p);
    assert OvertakenFrom(s, ev, p, id, 0, i) ==> Overtaken(s, ev, p, id);
    assert OvertakenFrom(s, ev, p, id, 1, i) ==> Overtaken(s, ev, p, id);
  }

  lemma {:induction false} ResumesFrom(s: State, ev: Event, p: Peer)
    ensures forall start: nat :: Resumes(s, ev, p, start) ==> start == 0 || start == 1
  {}

  lemma {:induction false} AbandonedIff(s: State, ev: Event, id: nat, i: nat)
    requires Placed(s, id, i) && QueueOk(s, s.requests[id].peer) && s.requests[id].peer in s.workers
    ensures var p := s.requests[id].peer;
      Abandoned(s, ev, p, id) <==>
        || (s.closed && Resumes(s, ev, p, 0))
        || (i >= 1 && s.closed && Resumes(s, ev, p, 1))
        || (i >= 1 && ev == Cancel(p) && s.workers[p].Waiting?)
  {
    hide Resumes;
    PlaceIsUnique(s, id, i);
    var p := s.requests[id].peer;
    ResumesFrom(s, ev, p);
    assert AbandonedFrom(s, ev, p, id, 0, i) ==> Abandoned(s, ev, p, id);
    assert AbandonedFrom(s, ev, p, id, 1, i) ==> Abandoned(s, ev, p, id);
  }

  lemma {:induction false} ReportsIff(l: Limits, s: State, ev: Event, id: nat, i: nat, o: Outcome)
    requires Inv(l, s) && Placed(s, id, i)
    ensures Answers(s, ev, id, o) <==> Reports(s, ev, s.requests[id].peer, i) == [o]
  {
    hide Inv, Overtaken, Abandoned, QueueOk, Late;
    PlacedPeer(l, s, id, i);
    PlaceIsUnique(s, id, i);
    OvertakenIff(s, ev, id, i);
    AbandonedIff(s, ev, id, i);
    HeadIff(s, id, i);
  }

  lemma {:induction false} HeadIff(s: State, id: nat, i: nat)
    requires Placed(s, id, i) && QueueOk(s, s.requests[id].peer)
    ensures s.queues[s.requests[id].peer][0] == id <==> i == 0
  {}

  // ------------------------------------------------------------------ every run

  /** A callback with outcome `o` has been made for the request. */
  predicate Told(s: State, id: nat, o: Outcome) {
    id < |s.requests| && exists n | n in s.requests[id].notices :: n.outcome == o
  }

  /** Step `i` of the run reports `o` for the request. */
  ghost predicate AnsweredAt(l: Limits, evs: seq<Event>, id: nat, o: Outcome, i: nat)
    requires i < |evs|
  {
    id < |Run(l, evs[..i]).requests| && Answers(Run(l, evs[..i]), evs[i], id, o)
  }

  /** A step tells a request an outcome exactly when it answers it so, and otherwise leaves it as told as it was. */
  lemma {:induction false} StepTold(l: Limits, s: State, ev: Event, id: nat, o: Outcome)
    requires Inv(l, s) && id < |s.requests|
    ensures Told(Step(l, s, ev), id, o) <==> Told(s, id, o) || Answers(s, ev, id, o)
  {
    hide Step, Inv, Answers;
    var s' := Step(l, s, ev);
    RequestKnown(l, s, id);
    if Queued(s, id) {
      var i := PlaceOf(s, id);
      StepReports(l, s, ev, id, i);
      ReportsIff(l, s, ev, id, i, o);
      TellsOutcome(s', id, o);
      AtMostOne(l, s, ev, id);
    } else {
      CallbacksAreFinal(l, s, ev, id);
      NotQueuedNotAnswered(s, ev, id, o);
    }
  }

  lemma {:induction false} RequestKnown(l: Limits, s: State, id: nat)
    requires Inv(l, s) && id < |s.requests|
    ensures Queued(s, id) <==> s.requests[id].notices == []
  {
    assert RequestOk(s, id);
  }

  lemma {:induction false} PlaceOf(s: State, id: nat) returns (i: nat)
    requires Queued(s, id) && s.requests[id].notices == []
    ensures Placed(s, id, i)
  {
    i :| 0 <= i < |s.queues[s.requests[id].peer]| && s.queues[s.requests[id].peer][i] == id;
  }

  lemma {:induction false} AtMostOne(l: Limits, s: State, ev: Event, id: nat)
    requires Inv(l, s) && id < |s.requests|
    ensures id < |Step(l, s, ev).requests| && |Step(l, s, ev).requests[id].notices| <= 1
  {
    hide Step, Inv;
    StepInv(l, s, ev);
    StepGrows(l, s, ev);
    RequestOnce(l, Step(l, s, ev), id);
  }

  lemma {:induction false} RequestOnce(l: Limits, s: State, id: nat)
    requires Inv(l, s) && id < |s.requests|
    ensures |s.requests[id].notices| <= 1
  {
    assert RequestOk(s, id);
  }

  lemma {:induction false} TellsOutcome(s: State, id: nat, o: Outcome)
    requires id < |s.requests| && |s.requests[id].notices| <= 1
    ensures Told(s, id, o) <==> Outcomes(s.requests[id].notices) == [o]
  {
    var notices := s.requests[id].notices;
    if Outcomes(notices) == [o] {
      assert |notices| == |Outcomes(notices)| == 1;
      assert notices[0] in notices && Outcomes(notices)[0] == notices[0].outcome;
    }
  }

  lemma {:induction false} NotQueuedNotAnswered(s: State, ev: Event, id: nat, o: Outcome)
    requires id < |s.requests| && !Queued(s, id)
    ensures !Answers(s, ev, id, o)
  {}

  /** Over every run a request has been told an outcome exactly when some step answered it so. */
  lemma {:induction false} ToldIff(l: Limits, evs: seq<Event>, id: nat, o: Outcome)
    ensures Told(Run(l, evs), id, o) <==> exists i :: 0 <= i < |evs| && AnsweredAt(l, evs, id, o, i)
    decreases |evs|
  {
    hide Step, Inv, Answers, Told;
    if evs == [] {
      NothingTold(l, id, o);
    } else {
      var n := |evs| - 1;
      var before := evs[..n];
      var s := Run(l, before);
      ToldIff(l, before, id, o);
      RunInv(l, before);
      forall i | 0 <= i < n ensures AnsweredAt(l, evs, id, o, i) <==> AnsweredAt(l, before, id, o, i) {
        assert before[..i] == evs[..i] && before[i] == evs[i];
      }
      if id < |s.requests| { StepTold(l, s, evs[n], id, o); } else { NewUntold(l, s, evs[n], id, o); }
      assert AnsweredAt(l, evs, id, o, n) <==> id < |s.requests| && Answers(s, evs[n], id, o);
    }
  }

  lemma {:induction false} NothingTold(l: Limits, id: nat, o: Outcome)
    ensures !Told(Run(l, []), id, o)
  {}

  lemma {:induction false} NewUntold(l: Limits, s: State, ev: Event, id: nat, o: Outcome)
    requires Inv(l, s) && id >= |s.requests|
    ensures !Told(s, id, o) && !Told(Step(l, s, ev), id, o)
  {
    hide Inv;
    if id < |Step(l, s, ev).requests| { StepAdds(l, s, ev, id); }
  }

  /** Step `i` is a reply to the request's client call. */
  ghost predicate RepliedAt(l: Limits, evs: seq<Event>, id: nat, i: nat)
    requires i < |evs|
  {
    var s := Run(l, evs[..i]);
    Called(s, id) && evs[i].Reply? && evs[i].peer == s.requests[id].peer
  }

  /** Step `i` is an error of the request's client call. */
  ghost predicate ErredAt(l: Limits, evs: seq<Event>, id: nat, i: nat)
    requires i < |evs|
  {
    var s := Run(l, evs[..i]);
    Called(s, id) && evs[i] == OperationError(s.requests[id].peer)
  }

  /** Step `i` is such a reply, and names the request's own device. */
  ghost predicate OwnReplyAt(l: Limits, evs: seq<Event>, id: nat, serial: string, i: nat)
    requires i < |evs|
  {
    RepliedAt(l, evs, id, i) && evs[i].answered == Some(serial)
  }

  /** Step `i` is such a reply, and names another device or none. */
  ghost predicate OtherReplyAt(l: Limits, evs: seq<Event>, id: nat, serial: string, i: nat)
    requires i < |evs|
  {
    RepliedAt(l, evs, id, i) && evs[i].answered != Some(serial)
  }

  /**
   * Over every run a request is confirmed exactly when its own device answered its call
   * while the queue was open, and reported as failed and possibly sent exactly when
   * another answer or an error met that call.
   */
  lemma {:induction false} ConfirmedIff(l: Limits, evs: seq<Event>, id: nat)
    requires id < |Run(l, evs).requests|
    ensures var serial := Run(l, evs).requests[id].serial; Told(Run(l, evs), id, Confirmed) <==>
      (exists i :: 0 <= i < |evs| && OwnReplyAt(l, evs, id, serial, i) && !Run(l, evs[..i]).closed)
    ensures var serial := Run(l, evs).requests[id].serial; Told(Run(l, evs), id, Failure(Failed, true)) <==>
      (exists i :: 0 <= i < |evs| && (ErredAt(l, evs, id, i) || OtherReplyAt(l, evs, id, serial, i)))
  {
    hide Told, Step, Queued, OwnReplyAt, OtherReplyAt, ErredAt, AnsweredAt, Run;
    ToldIff(l, evs, id, Confirmed);
    ToldIff(l, evs, id, Failure(Failed, true));
    forall i | 0 <= i < |evs|
      ensures var serial := Run(l, evs).requests[id].serial;
        && (AnsweredAt(l, evs, id, Confirmed, i) <==> OwnReplyAt(l, evs, id, serial, i) && !Run(l, evs[..i]).closed)
        && (AnsweredAt(l, evs, id, Failure(Failed, true), i) <==> ErredAt(l, evs, id, i) || OtherReplyAt(l, evs, id, serial, i))
    {
      AnsweredHow(l, evs, id, i);
    }
  }

  lemma {:induction false} AnsweredHow(l: Limits, evs: seq<Event>, id: nat, i: nat)
    requires i < |evs| && id < |Run(l, evs).requests|
    ensures var serial := Run(l, evs).requests[id].serial;
      && (AnsweredAt(l, evs, id, Confirmed, i) <==> OwnReplyAt(l, evs, id, serial, i) && !Run(l, evs[..i]).closed)
      && (AnsweredAt(l, evs, id, Failure(Failed, true), i) <==> ErredAt(l, evs, id, i) || OtherReplyAt(l, evs, id, serial, i))
  {
    hide Run;
    RunGrows(l, evs, i, |evs|);
    assert evs[..|evs|] == evs;
  }

  // --------------------------------------------------------- pending and finished

  /** The request asks for this setting and has had no callback. */
  predicate Awaits(s: State, serial: string, action: string, id: nat) {
    id < |s.requests| && s.requests[id].serial == serial && s.requests[id].action == action && s.requests[id].notices == []
  }

  /** Over every run a setting is pending exactly while some accepted request for it awaits its callback. */
  lemma {:induction false} PendingIff(l: Limits, evs: seq<Event>, serial: string, action: string)
    ensures Pending(Run(l, evs), serial, action) <==> exists id :: Awaits(Run(l, evs), serial, action, id)
  {
    hide Queued, Run;
    var s := Run(l, evs);
    forall id | 0 <= id < |s.requests| ensures Queued(s, id) <==> s.requests[id].notices == [] { OneTerminalCallback(l, evs, id); }
    if exists id :: Awaits(s, serial, action, id) {
      var id :| Awaits(s, serial, action, id);
      assert Queued(s, id);
    }
    if Pending(s, serial, action) {
      var id :| 0 <= id < |s.requests| && Queued(s, id) && s.requests[id].serial == serial && s.requests[id].action == action;
      assert Awaits(s, serial, action, id);
    }
  }

  /** Step `i` is the end of `close`, after every worker has ended. */
  ghost predicate EndsAt(l: Limits, evs: seq<Event>, i: nat)
    requires i < |evs|
  {
    evs[i] == CloseEnd && Run(l, evs[..i]).closed && AllEnded(Run(l, evs[..i]))
  }

  lemma {:induction false} StepFinished(l: Limits, s: State, ev: Event)
    ensures Step(l, s, ev).finished <==> s.finished || (ev == CloseEnd && s.closed && AllEnded(s))
  {
    hide Load, Resolve, Queued;
    if ev.Launch? { LoopFinished(s, ev.peer); }
    else if ev.Dispatch? { LoopFinished(Resolve(s, ev.peer, Failure(RouteChanged, false)), ev.peer); }
    else if ev.Reply? { LoopFinished(Resolve(s, ev.peer, AnswerOf(s, ev.peer, ev.answered)), ev.peer); }
    else if ev.OperationError? { LoopFinished(Resolve(s, ev.peer, Failure(Failed, true)), ev.peer); }
    else if ev.Timeout? { LoopFinished(Resolve(s, ev.peer, Failure(TimedOut, true)), ev.peer); }
    forall p: Peer, o: Outcome ensures Resolve(s, p, o).finished == s.finished { ResolveFinished(s, p, o); }
  }

  lemma {:induction false} ResolveFinished(s: State, p: Peer, o: Outcome)
    ensures Resolve(s, p, o).finished == s.finished
  {}

  lemma {:induction false} LoopFinished(s: State, p: Peer)
    ensures Loop(s, p).finished == s.finished
    decreases if p in s.queues then |s.queues[p]| else 0
  {
    if HasHead(s, p) && !s.closed && s.requests[s.queues[p][0]].expires - s.now <= 0 {
      LoopFinished(Resolve(s, p, Failure(Expired, false)), p);
    }
  }

  /** `close` has returned exactly when its end ran after every worker had ended, and then every request has its one callback. */
  lemma {:induction false} FinishedIff(l: Limits, evs: seq<Event>)
    ensures Run(l, evs).finished <==> exists i :: 0 <= i < |evs| && EndsAt(l, evs, i)
    ensures Run(l, evs).finished ==> forall id | 0 <= id < |Run(l, evs).requests| :: |Run(l, evs).requests[id].notices| == 1
    decreases |evs|
  {
    hide Step, AllEnded;
    if evs != [] {
      var n := |evs| - 1;
      var before := evs[..n];
      FinishedIff(l, before);
      StepFinished(l, Run(l, before), evs[n]);
      assert EndsAt(l, evs, n) <==> evs[n] == CloseEnd && Run(l, before).closed && AllEnded(Run(l, before));
      forall i | 0 <= i < n ensures EndsAt(l, evs, i) <==> EndsAt(l, before, i) {
        assert before[..i] == evs[..i] && before[i] == evs[i];
      }
    }
    forall id | 0 <= id < |Run(l, evs).requests| && Run(l, evs).finished ensures |Run(l, evs).requests[id].notices| == 1 {
      OneTerminalCallback(l, evs, id);
    }
  }

  // ------------------------------------------------------------- service and calls

  /** The request is started and its operation is about to check the route. */
  predicate Begins(s: State, p: Peer, id: nat) {
    p in s.workers && s.workers[p] == Waiting(false) && HasHead(s, p) && s.queues[p][0] == id && s.requests[id].started
  }

  /** An open worker at its loop starts the first request that is not late, or ends when all are. */
  lemma {:induction false} LoopServes(s: State, p: Peer, i: nat)
    requires p in s.queues && QueueOk(s, p) && i <= |s.queues[p]| && !s.closed
    requires forall j | 0 <= j < i :: Late(s, s.queues[p][j])
    ensures i == |s.queues[p]| ==> p !in Loop(s, p).workers && p !in Loop(s, p).queues
    ensures i < |s.queues[p]| && !Late(s, s.queues[p][i]) ==> Begins(Loop(s, p), p, s.queues[p][i])
    decreases |s.queues[p]|
  {
    if i > 0 {
      var s' := Resolve(s, p, Failure(Expired, false));
      ResolveQueued(s, p, Failure(Expired, false));
      assert s'.queues[p] == s.queues[p][1..];
      forall j | 0 <= j < i - 1 ensures Late(s', s'.queues[p][j]) { assert Late(s, s.queues[p][j + 1]); }
      LoopServes(s', p, i - 1);
    }
  }

  /** The worker's next step in an open queue, when it comes back to its loop with the requests from `start` on. */
  lemma {:induction false} NextServed(l: Limits, s: State, ev: Event, p: Peer, start: nat, i: nat)
    requires Inv(l, s) && p in s.queues && Resumes(s, ev, p, start) && !s.closed && start <= i <= |s.queues[p]|
    requires forall j | start <= j < i :: Late(s, s.queues[p][j])
    ensures i == |s.queues[p]| ==> p !in Step(l, s, ev).workers && p !in Step(l, s, ev).queues
    ensures i < |s.queues[p]| && !Late(s, s.queues[p][i]) ==> Begins(Step(l, s, ev), p, s.queues[p][i])
  {
    hide Loop, Inv, Load, Resolve, QueueOk, Begins;
    PeerKnown(l, s, p);
    if start == 0 {
      LoopServes(s, p, i);
    } else {
      var o := Verdict(s, ev, p);
      ResolvedServes(s, p, o, i);
    }
  }

  lemma {:induction false} PeerKnown(l: Limits, s: State, p: Peer)
    requires Inv(l, s) && p in s.queues
    ensures QueueOk(s, p) && HasHead(s, p) && p in s.workers
  {
    assert PeerOk(s, p);
  }

  lemma {:induction false} ResolvedServes(s: State, p: Peer, o: Outcome, i: nat)
    requires p in s.queues && QueueOk(s, p) && HasHead(s, p) && !s.closed && 1 <= i <= |s.queues[p]|
    requires forall j | 1 <= j < i :: Late(s, s.queues[p][j])
    ensures var s' := Loop(Resolve(s, p, o), p);
      && (i == |s.queues[p]| ==> p !in s'.workers && p !in s'.queues)
      && (i < |s.queues[p]| && !Late(s, s.queues[p][i]) ==> Begins(s', p, s.queues[p][i]))
  {
    hide Loop, Begins;
    var r := Resolve(s, p, o);
    ResolveQueued(s, p, o);
    assert r.queues[p] == s.queues[p][1..];
    assert forall k | 0 <= k < |s.requests| :: r.requests[k].expires == s.requests[k].expires;
    forall j | 0 <= j < i - 1 ensures Late(r, r.queues[p][j]) { assert Late(s, s.queues[p][j + 1]); }
    LoopServes(r, p, i - 1);
  }

  /** The step finds the request served, its route unchanged, and its client not called yet. */
  predicate Calls(s: State, ev: Event, id: nat) {
    id < |s.requests| && Serving(s, id) && !Called(s, id) && ev == Dispatch(s.requests[id].peer, true)
  }

  ghost predicate CalledAt(l: Limits, evs: seq<Event>, id: nat, i: nat)
    requires i < |evs|
  {
    Calls(Run(l, evs[..i]), evs[i], id)
  }

  lemma {:induction false} LoopCallsNone(s: State, p: Peer, id: nat)
    requires id < |s.requests|
    ensures id < |Loop(s, p).requests| && Loop(s, p).requests[id].calls == s.requests[id].calls
    decreases if p in s.queues then |s.queues[p]| else 0
  {
    if HasHead(s, p) && !s.closed && s.requests[s.queues[p][0]].expires - s.now <= 0 {
      LoopCallsNone(Resolve(s, p, Failure(Expired, false)), p, id);
    }
  }

  lemma {:induction false} ResolveCallsNone(s: State, p: Peer, o: Outcome, id: nat)
    requires id < |s.requests|
    ensures id < |Resolve(s, p, o).requests| && Resolve(s, p, o).requests[id].calls == s.requests[id].calls
  {}

  lemma {:induction false} FinishCallsNone(s: State, p: Peer, o: Outcome, id: nat)
    requires id < |s.requests|
    ensures var s' := Loop(Resolve(s, p, o), p); id < |s'.requests| && s'.requests[id].calls == s.requests[id].calls
    ensures var s' := Exit(Resolve(s, p, o), p); id < |s'.requests| && s'.requests[id].calls == s.requests[id].calls
  {
    ResolveCallsNone(s, p, o, id);
    LoopCallsNone(Resolve(s, p, o), p, id);
    hide Loop, Resolve;
  }

  lemma {:induction false} DispatchCalls(l: Limits, s: State, p: Peer, id: nat)
    requires Inv(l, s) && id < |s.requests|
    ensures id < |DispatchStep(s, p, true).requests|
    ensures DispatchStep(s, p, true).requests[id].calls == s.requests[id].calls + if Calls(s, Dispatch(p, true), id) then 1 else 0
  {
    if p in s.queues {
      PeerKnown(l, s, p);
      QueueHeadPeer(s, p);
    }
  }

  lemma {:induction false} QueueHeadPeer(s: State, p: Peer)
    requires p in s.queues && QueueOk(s, p) && HasHead(s, p)
    ensures s.requests[s.queues[p][0]].peer == p && Queued(s, s.queues[p][0])
  {}

  lemma {:induction false} StepCalls(l: Limits, s: State, ev: Event, id: nat)
    requires Inv(l, s) && id < |s.requests|
    ensures id < |Step(l, s, ev).requests|
    ensures Step(l, s, ev).requests[id].calls == s.requests[id].calls + if Calls(s, ev, id) then 1 else 0
  {
    hide Inv, Loop, Resolve, Exit, Load, Serving, Called, Queued;
    match ev {
      case Launch(p) => LoopCallsNone(s, p, id);
      case Dispatch(p, routeOk) =>
        if routeOk { DispatchCalls(l, s, p, id); } else { FinishCallsNone(s, p, Failure(RouteChanged, false), id); }
      case Reply(p, answered) => FinishCallsNone(s, p, AnswerOf(s, p, answered), id);
      case OperationError(p) => FinishCallsNone(s, p, Failure(Failed, true), id);
      case Timeout(p) => FinishCallsNone(s, p, Failure(TimedOut, true), id);
      case Cancel(p) => FinishCallsNone(s, p, Failure(Cancelled, true), id);
      case _ =>
    }
  }

  lemma {:induction false} NewUncalled(l: Limits, s: State, ev: Event, id: nat)
    requires Inv(l, s) && |s.requests| <= id < |Step(l, s, ev).requests|
    ensures Step(l, s, ev).requests[id].calls == 0
  {
    hide Inv;
    StepInv(l, s, ev);
    StepAdds(l, s, ev, id);
    NewIdle(l, s, ev, id);
  }

  lemma {:induction false} NewIdle(l: Limits, s: State, ev: Event, id: nat)
    requires |s.requests| <= id < |Step(l, s, ev).requests|
    ensures Step(l, s, ev).requests[id].calls == 0
  {
    hide Loop, Exit, Resolve, Load, Queued;
    LoopSizes(s);
  }

  lemma {:induction false} LoopSizes(s: State)
    ensures forall p: Peer :: |Loop(s, p).requests| == |s.requests|
    ensures forall p: Peer, o: Outcome :: |Loop(Resolve(s, p, o), p).requests| == |s.requests|
    ensures forall p: Peer, o: Outcome :: |Exit(Resolve(s, p, o), p).requests| == |s.requests|
  {
    hide Loop;
    forall p: Peer ensures |Loop(s, p).requests| == |s.requests| { LoopSize(s, p); }
    forall p: Peer, o: Outcome ensures |Loop(Resolve(s, p, o), p).requests| == |s.requests| { LoopSize(Resolve(s, p, o), p); }
  }

  lemma {:induction false} LoopSize(s: State, p: Peer)
    ensures |Loop(s, p).requests| == |s.requests|
    decreases if p in s.queues then |s.queues[p]| else 0
  {
    if HasHead(s, p) && !s.closed && s.requests[s.queues[p][0]].expires - s.now <= 0 {
      LoopSize(Resolve(s, p, Failure(Expired, false)), p);
    }
  }

  /** Over every run the client has been called for a request exactly when some step found it served on its unchanged route. */
  lemma {:induction false} CalledIff(l: Limits, evs: seq<Event>, id: nat)
    requires id < |Run(l, evs).requests|
    ensures Run(l, evs).requests[id].calls == 1 <==> exists i :: 0 <= i < |evs| && CalledAt(l, evs, id, i)
    ensures Run(l, evs).requests[id].calls <= 1
    decreases |evs|
  {
    hide Step, Inv, Calls;
    TruthfulReports(l, evs, id);
    if evs != [] {
      var n := |evs| - 1;
      var before := evs[..n];
      var s := Run(l, before);
      RunInv(l, before);
      forall i | 0 <= i < n ensures CalledAt(l, evs, id, i) <==> CalledAt(l, before, id, i) {
        assert before[..i] == evs[..i] && before[i] == evs[i];
      }
      assert CalledAt(l, evs, id, n) <==> Calls(s, evs[n], id);
      if id < |s.requests| {
        CalledIff(l, before, id);
        StepCalls(l, s, evs[n], id);
      } else {
        NewUncalled(l, s, evs[n], id);
        NotThere(l, before, id);
        NotYet(s, evs[n], id);
      }
    }
  }

  lemma {:induction false} NotYet(s: State, ev: Event, id: nat)
    requires id >= |s.requests|
    ensures !Calls(s, ev, id)
  {}

  /** A request that a run has not submitted was never called in it. */
  lemma {:induction false} NotThere(l: Limits, evs: seq<Event>, id: nat)
    requires id >= |Run(l, evs).requests|
    ensures forall i | 0 <= i < |evs| :: !CalledAt(l, evs, id, i)
  {
    forall i | 0 <= i < |evs| ensures !CalledAt(l, evs, id, i) {
      RunGrows(l, evs, i, |evs|);
      assert evs[..|evs|] == evs;
    }
  }
}
