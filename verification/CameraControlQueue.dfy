/**
 * The queue object. Each method is one stretch of code between two awaits and is
 * proved to make exactly the transition of `ControlQueue` that it stands for.
 */
module CameraControlQueueModule {
  import opened Basics
  import opened ControlQueue
  import ControlAnswers

  datatype Rejection = Unloading | TooMany | NoTask | Unavailable

  /** What a control captures of its camera when it is submitted. */
  datatype Binding = Binding(model: Option<string>, station: Option<string>)

  /** The fields of a camera that the coordinator consults. */
  datatype CameraRow = CameraRow(binding: Binding, enableControl: bool, motionControl: bool)

  const ACTIONS: set<string> := {"enabled", "motion"}

  /** The camera is still known, bound as it was, and capable of the action. */
  predicate SameRoute(captured: Binding, action: string, current: Option<CameraRow>) {
    && current.Some? && current.value.binding == captured
    && (if action == "enabled" then current.value.enableControl else current.value.motionControl)
  }

  /** Requests to one station share its worker; a camera without a station has its own. */
  function PeerOf(serial: string, binding: Binding): Peer {
    if binding.station.Some? && binding.station.value != "" then binding.station.value else serial
  }

  lemma {:induction false} LoopCalls(s: State, p: Peer, i: nat)
    requires i < |s.requests|
    ensures i < |Loop(s, p).requests| && Loop(s, p).requests[i].calls == s.requests[i].calls
    decreases if p in s.queues then |s.queues[p]| else 0
  {
    if HasHead(s, p) && !s.closed && s.requests[s.queues[p][0]].expires - s.now <= 0 {
      LoopCalls(Resolve(s, p, Failure(Expired, false)), p, i);
    }
  }

  lemma {:induction false} LoopSize(s: State, p: Peer)
    ensures |Loop(s, p).requests| == |s.requests|
    decreases if p in s.queues then |s.queues[p]| else 0
  {
    if HasHead(s, p) && !s.closed && s.requests[s.queues[p][0]].expires - s.now <= 0 {
      LoopSize(Resolve(s, p, Failure(Expired, false)), p);
    }
  }

  lemma {:induction false} DispatchSize(s: State, p: Peer)
    ensures |DispatchStep(s, p, false).requests| == |s.requests|
  {
    LoopSize(Resolve(s, p, Failure(RouteChanged, false)), p);
  }

  lemma {:induction false} DispatchCalls(s: State, p: Peer, i: nat)
    requires i < |s.requests|
    ensures i < |DispatchStep(s, p, false).requests| && DispatchStep(s, p, false).requests[i].calls == s.requests[i].calls
  {
    hide Loop;
    var o := Failure(RouteChanged, false);
    if HasHead(s, p) {
      assert Resolve(s, p, o).requests[i].calls == s.requests[i].calls;
      LoopCalls(Resolve(s, p, o), p, i);
    }
  }

  /** No request has been called since, and none was added. */
  ghost predicate SameCalls(before: seq<Request>, after: seq<Request>) {
    |after| == |before| && forall i | 0 <= i < |before| :: after[i].calls == before[i].calls
  }

  /** Without the same route a dispatch calls nothing. */
  lemma {:induction false} RefusedCallsNothing(s: State, p: Peer)
    ensures SameCalls(s.requests, DispatchStep(s, p, false).requests)
  {
    DispatchSize(s, p);
    forall i | 0 <= i < |s.requests| ensures DispatchStep(s, p, false).requests[i].calls == s.requests[i].calls {
      DispatchCalls(s, p, i);
    }
  }

  class CameraControlQueue {
    const limits: Limits
    var requests: seq<Request>
    var queues: map<Peer, seq<nat>>
    var workers: map<Peer, Phase>
    var closed: bool
    var now: int
    // History: whether `close` has returned, and the order in which operations started.
    ghost var finished: bool
    ghost var startLog: seq<nat>

    ghost function View(): State
      reads this
    {
      State(requests, queues, workers, closed, finished, now, startLog)
    }

    constructor (limits: Limits)
      ensures this.limits == limits && View() == INITIAL
    {
      this.limits := limits;
      requests, queues, workers := [], map[], map[];
      closed, now, finished, startLog := false, 0, false, [];
    }

    /** Total queued over all peers. */
    method Outstanding() returns (total: nat)
      ensures total == Load(queues)
    {
      total := 0;
      var rest := queues;
      while rest != map[]
        invariant total + Load(rest) == Load(queues)
        decreases |rest|
      {
        var peer :| peer in rest;
        LoadPick(rest, peer);
        total := total + |rest[peer]|;
        rest := rest - {peer};
      }
    }

    /** Whether an accepted request for this setting awaits its outcome. */
    method IsPending(serial: string, action: string) returns (found: bool)
      requires Inv(limits, View())
      ensures found == Pending(View(), serial, action)
    {
      QueuesInRange();
      hide Inv, Queued, Pending, QueueOk;
      var todo := queues.Keys;
      while todo != {}
        invariant todo <= queues.Keys
        invariant forall p | p in queues && p !in todo :: NoneIn(p, serial, action)
        decreases |todo|
      {
        var peer :| peer in todo;
        var i := FirstMatch(queues[peer], serial, action);
        if i < |queues[peer]| {
          FoundPending(peer, i, serial, action);
          return true;
        }
        todo := todo - {peer};
      }
      NothingPending(serial, action);
      return false;
    }

    ghost predicate NoneIn(p: Peer, serial: string, action: string)
      requires p in queues
      reads this
    {
      forall i | 0 <= i < |queues[p]| :: !Matches(queues[p][i], serial, action)
    }

    lemma {:induction false} QueuesInRange()
      requires Inv(limits, View())
      ensures forall p | p in queues :: QueueOk(View(), p) && forall k | 0 <= k < |queues[p]| :: queues[p][k] < |requests|
    {
      forall p | p in queues ensures QueueOk(View(), p) { }
    }

    lemma {:induction false} FoundPending(peer: Peer, i: nat, serial: string, action: string)
      requires peer in queues && QueueOk(View(), peer) && i < |queues[peer]|
      requires Matches(queues[peer][i], serial, action)
      ensures Pending(View(), serial, action)
    {
      assert Queued(View(), queues[peer][i]);
    }

    lemma {:induction false} NothingPending(serial: string, action: string)
      requires forall p | p in queues :: NoneIn(p, serial, action)
      ensures !Pending(View(), serial, action)
    {
      forall id | 0 <= id < |requests| && Queued(View(), id) ensures !Matches(id, serial, action) {
        var p := requests[id].peer;
        assert NoneIn(p, serial, action);
        var i :| 0 <= i < |queues[p]| && queues[p][i] == id;
      }
    }

    method FirstMatch(ids: seq<nat>, serial: string, action: string) returns (i: nat)
      requires forall k | 0 <= k < |ids| :: ids[k] < |requests|
      ensures i <= |ids| && (i < |ids| ==> Matches(ids[i], serial, action))
      ensures forall k | 0 <= k < i :: !Matches(ids[k], serial, action)
    {
      i := 0;
      while i < |ids| && !(requests[ids[i]].serial == serial && requests[ids[i]].action == action)
        invariant i <= |ids| && forall k | 0 <= k < i :: !Matches(ids[k], serial, action)
      {
        i := i + 1;
      }
    }

    ghost predicate Matches(id: nat, serial: string, action: string)
      reads this
    {
      id < |requests| && requests[id].serial == serial && requests[id].action == action
    }

    /** Why a submission is refused, in the order of the tests. */
    ghost function Refusal(s: State): Rejection {
      if s.closed then Unloading else if Load(s.queues) >= limits.capacity then TooMany else NoTask
    }

    /** Accept without awaiting, or reject before creating any write. */
    method Submit(peer: Peer, serial: string, action: string, created: bool) returns (r: Result<nat, Rejection>)
      requires Inv(limits, View())
      modifies this
      ensures Inv(limits, View()) && View() == Step(limits, old(View()), Event.Submit(peer, serial, action, created))
      ensures r.Ok? <==> !old(closed) && Load(old(queues)) < limits.capacity && (created || peer in old(workers))
      ensures r.Ok? ==> r.value == |old(requests)| && Queued(View(), r.value)
      ensures r.Err? ==> View() == old(View()) && r.error == Refusal(old(View()))
    {
      StepInv(limits, View(), Event.Submit(peer, serial, action, created));
      r := TrySubmit(peer, serial, action, created);
    }

    /** The coordinator's admission: a known camera and one of the two actions, then the queue's own. */
    method SubmitCameraControl(cameras: map<string, CameraRow>, serial: string, action: string, created: bool)
        returns (r: Result<(nat, Binding), Rejection>)
      requires Inv(limits, View())
      modifies this
      ensures Inv(limits, View())
      ensures r == Err(Unavailable) <==> serial !in cameras || action !in ACTIONS
      ensures r.Ok? ==> r.value.1 == cameras[serial].binding && Queued(View(), r.value.0)
      ensures r.Ok? ==> requests[r.value.0].serial == serial && requests[r.value.0].action == action
      ensures r.Ok? ==> requests[r.value.0].peer == PeerOf(serial, cameras[serial].binding)
      ensures r.Err? ==> View() == old(View())
    {
      hide Inv, Load;
      if serial !in cameras || action !in ACTIONS { return Err(Unavailable); }
      var binding := cameras[serial].binding;
      var id := Submit(PeerOf(serial, binding), serial, action, created);
      if id.Err? { return Err(id.error); }
      return Ok((id.value, binding));
    }

    method TrySubmit(peer: Peer, serial: string, action: string, created: bool) returns (r: Result<nat, Rejection>)
      requires queues.Keys == workers.Keys
      modifies this`requests, this`queues, this`workers
      ensures View() == SubmitStep(limits, old(View()), peer, serial, action, created)
      ensures r.Ok? <==> !old(closed) && Load(old(queues)) < limits.capacity && (created || peer in old(workers))
      ensures r.Ok? ==> r.value == |old(requests)| && Queued(View(), r.value)
      ensures r.Err? ==> View() == old(View()) && r.error == Refusal(old(View()))
    {
      if closed { return Err(Unloading); }
      var outstanding := Outstanding();
      if outstanding >= limits.capacity { return Err(TooMany); }
      if peer !in workers && !created {
        // The new queue is taken back out, which restores the state on entry.
        queues := queues - {peer};
        assert queues == old(queues);
        return Err(NoTask);
      }
      hide Load, Queued;
      var id := Accept(peer, serial, action);
      return Ok(id);
    }

    method Accept(peer: Peer, serial: string, action: string) returns (id: nat)
      requires !closed && Load(queues) < limits.capacity
      modifies this`requests, this`queues, this`workers
      ensures View() == SubmitStep(limits, old(View()), peer, serial, action, true)
      ensures id == |old(requests)| && Queued(View(), id)
    {
      id := Enqueue(peer, Request(peer, serial, action, now, now + limits.lifetime, false, 0, []));
      if peer !in workers { workers := workers[peer := Starting]; }
    }

    method Enqueue(peer: Peer, r: Request) returns (id: nat)
      requires r.peer == peer
      modifies this`requests, this`queues
      ensures id == |old(requests)| && requests == old(requests) + [r]
      ensures queues == old(queues)[peer := (if peer in old(queues) then old(queues)[peer] else []) + [id]]
      ensures Queued(View(), id)
    {
      var queue := if peer in queues then queues[peer] else [];
      id := |requests|;
      requests := requests + [r];
      queues := queues[peer := queue + [id]];
      assert queues[peer][|queue|] == id;
    }

    /** One terminal callback for the head request, and its removal. */
    method Finish(peer: Peer, outcome: Outcome)
      modifies this`requests, this`queues
      ensures View() == Resolve(old(View()), peer, outcome)
    {
      if peer !in queues || queues[peer] == [] || queues[peer][0] >= |requests| { return; }
      var id := queues[peer][0];
      requests := requests[id := requests[id].(notices := requests[id].notices + [Notice(outcome, closed, now)])];
      queues := queues[peer := queues[peer][1..]];
    }

    /** Report the listed requests as cancelled, one callback each. */
    method CancelQueued(ids: seq<nat>, asStarted: bool)
      requires forall i | 0 <= i < |ids| :: ids[i] < |requests|
      requires forall i, j | 0 <= i < j < |ids| :: ids[i] < ids[j]
      modifies this`requests
      ensures requests == CancelAll(old(View()), ids, asStarted)
    {
      for k := 0 to |ids|
        invariant |requests| == |old(requests)|
        invariant forall i | 0 <= i < |requests| ::
          requests[i] == if i in ids[..k] then CancelAll(old(View()), ids, asStarted)[i] else old(requests)[i]
      {
        var id := ids[k];
        assert id !in ids[..k] && ids[..k + 1] == ids[..k] + [id];
        var notice := Notice(Failure(Cancelled, asStarted && requests[id].started), closed, now);
        requests := requests[id := requests[id].(notices := requests[id].notices + [notice])];
      }
      assert ids[..|ids|] == ids;
    }

    /** Report every request still queued for a finished worker, then release the peer. */
    method Retire(peer: Peer)
      requires peer in queues ==> QueueOk(View(), peer)
      modifies this`requests, this`queues, this`workers
      ensures View() == Exit(old(View()), peer)
    {
      if peer !in queues { return; }
      CancelQueued(queues[peer], false);
      queues := queues - {peer};
      workers := workers - {peer};
    }

    /** The worker loop: drop expired heads, start the first live one, or end. */
    method Serve(peer: Peer)
      requires peer in queues ==> QueueOk(View(), peer)
      modifies this
      ensures View() == Loop(old(View()), peer)
    {
      while peer in queues && queues[peer] != [] && queues[peer][0] < |requests| && !closed
        invariant Loop(View(), peer) == Loop(old(View()), peer)
        invariant peer in queues ==> QueueOk(View(), peer)
        decreases if peer in queues then |queues[peer]| else 0
      {
        var id := queues[peer][0];
        if requests[id].expires - now <= 0 {
          ResolveQueued(View(), peer, Failure(Expired, false));
          Finish(peer, Failure(Expired, false));
        } else {
          requests := requests[id := requests[id].(started := true)];
          workers := workers[peer := Waiting(false)];
          startLog := startLog + [id];
          return;
        }
      }
      Retire(peer);
    }

    lemma {:induction false} QueueOf(peer: Peer)
      requires Inv(limits, View())
      ensures peer in queues ==> QueueOk(View(), peer)
    {}

    method FinishAndServe(peer: Peer, outcome: Outcome)
      requires peer in queues ==> QueueOk(View(), peer)
      modifies this
      ensures View() == Loop(Resolve(old(View()), peer, outcome), peer)
    {
      if HasHead(View(), peer) { ResolveQueued(View(), peer, outcome); }
      hide Loop;
      Finish(peer, outcome);
      Serve(peer);
    }

    method Launched(peer: Peer)
      requires Inv(limits, View())
      modifies this
      ensures Inv(limits, View()) && View() == Step(limits, old(View()), Launch(peer))
    {
      StepInv(limits, View(), Launch(peer));
      QueueOf(peer);
      hide Inv, Loop, QueueOk;
      if peer in workers && workers[peer] == Starting { Serve(peer); }
    }

    /** `execute`: compare the captured route with the camera as it is now, then make the only client call. */
    method Execute(peer: Peer, captured: Binding, action: string, current: Option<CameraRow>)
      requires Inv(limits, View())
      modifies this
      ensures Inv(limits, View()) && View() == Step(limits, old(View()), Dispatch(peer, SameRoute(captured, action, current)))
      ensures !SameRoute(captured, action, current) ==> SameCalls(old(requests), requests)
    {
      var routeOk := false;
      if current.Some? && current.value.binding.model == captured.model && current.value.binding.station == captured.station {
        routeOk := if action == "enabled" then current.value.enableControl else current.value.motionControl;
      }
      assert routeOk == SameRoute(captured, action, current);
      StepInv(limits, View(), Dispatch(peer, routeOk));
      RefusedCallsNothing(View(), peer);
      hide Inv, SameCalls;
      CheckAndCall(peer, routeOk);
    }

    method CheckAndCall(peer: Peer, routeOk: bool)
      requires peer in queues ==> QueueOk(View(), peer)
      modifies this
      ensures View() == DispatchStep(old(View()), peer, routeOk)
    {
      hide Loop, QueueOk, Resolve;
      if peer !in queues || queues[peer] == [] || queues[peer][0] >= |requests| { return; }
      if peer !in workers || workers[peer] != Waiting(false) { return; }
      if !routeOk {
        FinishAndServe(peer, Failure(RouteChanged, false));
        return;
      }
      var id := queues[peer][0];
      requests := requests[id := requests[id].(calls := requests[id].calls + 1)];
      workers := workers[peer := Waiting(true)];
    }

    /** The response names `answered` as its device, or none when it is malformed. */
    method Replied(peer: Peer, answered: Option<string>)
      requires Inv(limits, View())
      modifies this
      ensures Inv(limits, View()) && View() == Step(limits, old(View()), Reply(peer, answered))
      ensures forall id, o | 0 <= id < |old(requests)| ::
        ControlAnswers.Told(View(), id, o) <==>
          ControlAnswers.Told(old(View()), id, o) || ControlAnswers.Answers(old(View()), Reply(peer, answered), id, o)
    {
      hide ControlAnswers.Told, ControlAnswers.Answers;
      forall id, o | 0 <= id < |requests|
        ensures ControlAnswers.Told(Step(limits, View(), Reply(peer, answered)), id, o) <==>
          ControlAnswers.Told(View(), id, o) || ControlAnswers.Answers(View(), Reply(peer, answered), id, o)
      {
        ControlAnswers.StepTold(limits, View(), Reply(peer, answered), id, o);
      }
      StepInv(limits, View(), Reply(peer, answered));
      QueueOf(peer);
      hide Inv, Loop, QueueOk, Resolve;
      if peer !in workers || workers[peer] != Waiting(true) { return; }
      var outcome := Failure(Failed, true);
      if peer in queues && queues[peer] != [] && queues[peer][0] < |requests| {
        if answered == Some(requests[queues[peer][0]].serial) { outcome := if closed then Failure(Cancelled, true) else Confirmed; }
      }
      FinishAndServe(peer, outcome);
    }

    method Errored(peer: Peer)
      requires Inv(limits, View())
      modifies this
      ensures Inv(limits, View()) && View() == Step(limits, old(View()), OperationError(peer))
    {
      StepInv(limits, View(), OperationError(peer));
      QueueOf(peer);
      hide Inv, Loop, QueueOk, Resolve;
      if peer in workers && workers[peer] == Waiting(true) { FinishAndServe(peer, Failure(Failed, true)); }
    }

    method TimedOutAt(peer: Peer)
      requires Inv(limits, View())
      modifies this
      ensures Inv(limits, View()) && View() == Step(limits, old(View()), Timeout(peer))
    {
      StepInv(limits, View(), Timeout(peer));
      QueueOf(peer);
      hide Inv, Loop, QueueOk, Resolve;
      if peer in workers && workers[peer].Waiting? { FinishAndServe(peer, Failure(TimedOut, true)); }
    }

    method FinishAndRetire(peer: Peer, outcome: Outcome)
      requires peer in queues ==> QueueOk(View(), peer)
      modifies this
      ensures View() == Exit(Resolve(old(View()), peer, outcome), peer)
    {
      if HasHead(View(), peer) { ResolveQueued(View(), peer, outcome); }
      hide Exit;
      Finish(peer, outcome);
      Retire(peer);
    }

    method CancelledAt(peer: Peer)
      requires Inv(limits, View())
      modifies this
      ensures Inv(limits, View()) && View() == Step(limits, old(View()), Cancel(peer))
    {
      StepInv(limits, View(), Cancel(peer));
      QueueOf(peer);
      hide Inv, Exit, QueueOk, Resolve;
      if peer !in workers { return; }
      match workers[peer] {
        case Starting => workers := workers[peer := Dead];
        case Waiting(_) => FinishAndRetire(peer, Failure(Cancelled, true));
        case Dead =>
      }
    }

    method BeginClose()
      requires Inv(limits, View())
      modifies this`closed
      ensures Inv(limits, View()) && View() == Step(limits, old(View()), CloseBegin)
    {
      StepInv(limits, View(), CloseBegin);
      hide Inv;
      closed := true;
    }

    /** The end of `close`, once every worker task has ended: report what is still queued. */
    method EndClose()
      requires Inv(limits, View())
      requires closed && forall p | p in workers :: workers[p] == Dead
      modifies this
      ensures Inv(limits, View()) && View() == Step(limits, old(View()), CloseEnd)
    {
      StepInv(limits, View(), CloseEnd);
      QueuesInRange();
      ReportAndClear();
    }

    method ReportAndClear()
      requires closed && forall p | p in workers :: workers[p] == Dead
      requires forall p | p in queues :: QueueOk(View(), p) && forall k | 0 <= k < |queues[p]| :: queues[p][k] < |requests|
      modifies this
      ensures View() == CloseEndStep(old(View()))
    {
      ReportQueued();
      hide Queued;
      queues, workers := map[], map[];
      finished := true;
      assert requests == CloseEndStep(old(View())).requests;
    }

    method ReportQueued()
      requires forall p | p in queues :: QueueOk(View(), p) && forall k | 0 <= k < |queues[p]| :: queues[p][k] < |requests|
      modifies this`requests
      ensures Reported(old(View()), requests, {})
    {
      ghost var before := View();
      NothingReported(before);
      hide Inv, Reported, QueueOk, CancelAll;
      var todo := queues.Keys;
      while todo != {}
        invariant View() == before.(requests := requests)
        invariant todo <= queues.Keys && Reported(before, requests, todo)
        decreases |todo|
      {
        var peer :| peer in todo;
        ReportStep(before, requests, todo, peer);
        CancelQueued(queues[peer], true);
        todo := todo - {peer};
      }
    }
  }

  /** The queued requests of every peer outside `rest` have been reported as cancelled. */
  ghost predicate Reported(s: State, rs: seq<Request>, rest: set<Peer>) {
    && |rs| == |s.requests|
    && forall i | 0 <= i < |rs| ::
         rs[i] == if Queued(s, i) && s.requests[i].peer !in rest
                  then Noted(s, s.requests[i], Failure(Cancelled, s.requests[i].started))
                  else s.requests[i]
  }

  lemma {:induction false} NothingReported(s: State)
    requires forall i | 0 <= i < |s.requests| && Queued(s, i) :: s.requests[i].peer in s.queues
    ensures Reported(s, s.requests, s.queues.Keys)
  {}

  lemma {:induction false} ReportStep(s: State, rs: seq<Request>, rest: set<Peer>, peer: Peer)
    requires Reported(s, rs, rest) && peer in rest && peer in s.queues && QueueOk(s, peer)
    ensures Reported(s, CancelAll(s.(requests := rs), s.queues[peer], true), rest - {peer})
    ensures forall i | 0 <= i < |s.queues[peer]| :: s.queues[peer][i] < |rs|
    ensures forall i, j | 0 <= i < j < |s.queues[peer]| :: s.queues[peer][i] < s.queues[peer][j]
  {
    forall i | 0 <= i < |rs| ensures i in s.queues[peer] <==> Queued(s, i) && s.requests[i].peer == peer { }
  }
}
