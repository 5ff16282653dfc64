/** What holds of accepted camera controls over every interleaving. */
module ControlTheorems {
  import opened Basics
  import opened ControlQueue

  /**
   * Exactly one terminal callback per accepted request: none while it is queued,
   * one as soon as it is not, so all are resolved when `close` returns and every
   * request of a peer is resolved once that peer's worker has cleaned up.
   */
  lemma {:induction false} OneTerminalCallback(l: Limits, evs: seq<Event>, id: nat)
    requires id < |Run(l, evs).requests|
    ensures var s := Run(l, evs); var r := s.requests[id];
      && |r.notices| == (if Queued(s, id) then 0 else 1)
      && (s.finished ==> |r.notices| == 1)
      && (r.peer !in s.workers ==> |r.notices| == 1)
  {
    RunInv(l, evs);
    assert RequestOk(Run(l, evs), id);
  }

  /** A callback, once made, is never withdrawn or repeated by any later step. */
  lemma {:induction false} CallbacksAreFinal(l: Limits, s: State, ev: Event, id: nat)
    requires Inv(l, s) && id < |s.requests| && s.requests[id].notices != []
    ensures var s' := Step(l, s, ev); id < |s'.requests| && s'.requests[id].notices == s.requests[id].notices
  {
    StepInv(l, s, ev);
    StepGrows(l, s, ev);
    assert RequestOk(s, id) && RequestOk(Step(l, s, ev), id);
  }

  /** Steps only ever append: requests keep their place and their notices. */
  ghost predicate Grows(s: State, s': State) {
    && |s.requests| <= |s'.requests|
    && forall i | 0 <= i < |s.requests| ::
         s.requests[i].notices <= s'.requests[i].notices && s.requests[i].peer == s'.requests[i].peer
         && s.requests[i].expires == s'.requests[i].expires && s.requests[i].serial == s'.requests[i].serial
  }

  lemma {:induction false} LoopGrows(s: State, p: Peer)
    ensures Grows(s, Loop(s, p))
    decreases if p in s.queues then |s.queues[p]| else 0
  {
    if HasHead(s, p) && !s.closed && s.requests[s.queues[p][0]].expires - s.now <= 0 {
      LoopGrows(Resolve(s, p, Failure(Expired, false)), p);
    }
  }

  lemma {:induction false} FinishGrows(s: State, p: Peer, o: Outcome)
    ensures Grows(s, Loop(Resolve(s, p, o), p)) && Grows(s, Exit(Resolve(s, p, o), p))
  {
    var r := Resolve(s, p, o);
    assert Grows(s, r);
    LoopGrows(r, p);
    ExitGrows(r, p);
    GrowsTransitive(s, r, Loop(r, p));
    GrowsTransitive(s, r, Exit(r, p));
  }

  lemma {:induction false} GrowsTransitive(a: State, b: State, c: State)
    requires Grows(a, b) && Grows(b, c)
    ensures Grows(a, c)
  {}

  lemma {:induction false} ExitGrows(s: State, p: Peer)
    ensures Grows(s, Exit(s, p))
  {}

  lemma {:induction false} StepGrows(l: Limits, s: State, ev: Event)
    ensures Grows(s, Step(l, s, ev))
  {
    hide Loop, Exit, Resolve, Load;
    match ev {
      case Launch(p) => LoopGrows(s, p);
      case Dispatch(p, routeOk) => FinishGrows(s, p, Failure(RouteChanged, false));
      case Reply(p, answered) => FinishGrows(s, p, AnswerOf(s, p, answered));
      case OperationError(p) => FinishGrows(s, p, Failure(Failed, true));
      case Timeout(p) => FinishGrows(s, p, Failure(TimedOut, true));
      case Cancel(p) => FinishGrows(s, p, Failure(Cancelled, true));
      case _ =>
    }
  }

  /**
   * Truthful reports: the client is called at most once per request over the
   * whole run, a confirmation follows such a call and is never published after
   * closing, and a failure reported as not dispatched means no call was made.
   */
  lemma {:induction false} TruthfulReports(l: Limits, evs: seq<Event>, id: nat)
    requires id < |Run(l, evs).requests|
    ensures var r := Run(l, evs).requests[id];
      && r.calls <= 1
      && forall n | n in r.notices ::
           && (n.outcome.Confirmed? ==> r.calls == 1 && !n.closed)
           && (n.outcome.Failure? && !n.outcome.dispatched ==> r.calls == 0)
  {
    RunInv(l, evs);
    assert RequestOk(Run(l, evs), id);
    var r := Run(l, evs).requests[id];
    forall n | n in r.notices ensures n == r.notices[0] { }
  }

  /**
   * Serial service: every queue has a worker and a head, only the head can have
   * been started or called, operations of one peer start in submission order,
   * and the number outstanding never exceeds the capacity.
   */
  lemma {:induction false} SerialPerPeer(l: Limits, evs: seq<Event>)
    ensures var s := Run(l, evs);
      && Load(s.queues) <= l.capacity
      && s.queues.Keys == s.workers.Keys
      && (forall p | p in s.queues :: s.queues[p] != [] &&
           forall i | 1 <= i < |s.queues[p]| :: Idle(s, s.queues[p][i]))
      && LogOk(s)
  {
    RunInv(l, evs);
    var s := Run(l, evs);
    forall p | p in s.queues ensures s.queues[p] != [] && forall i | 1 <= i < |s.queues[p]| :: Idle(s, s.queues[p][i]) {
      assert PeerOk(s, p);
    }
  }

  /**
   * A worker cancelled before its first resumption ends without reporting: its
   * requests stay queued, and only `close` resolves them.
   */
  lemma {:induction false} CancelledBeforeStart(l: Limits, s: State, p: Peer, ev: Event)
    requires Inv(l, s) && p in s.workers && s.workers[p] == Dead
    requires p in Step(l, s, ev).workers
    ensures var s' := Step(l, s, ev);
      s'.workers[p] == Dead && p in s.queues && p in s'.queues && s.queues[p] <= s'.queues[p]
    ensures forall id | id in s.queues[p] :: s.requests[id].notices == []
  {
    assert PeerOk(s, p) && QueueOk(s, p);
    forall id | id in s.queues[p] ensures s.requests[id].notices == [] {
      assert Queued(s, id) && RequestOk(s, id);
    }
    StepOthers(l, s, ev, p);
  }

  lemma {:induction false} LoopOthers(s: State, q: Peer, p: Peer)
    requires p != q && p in s.workers && p in s.queues
    ensures var s' := Loop(s, q);
      p in s'.workers && p in s'.queues && s'.workers[p] == s.workers[p] && s'.queues[p] == s.queues[p]
    decreases if q in s.queues then |s.queues[q]| else 0
  {
    if HasHead(s, q) && !s.closed && s.requests[s.queues[q][0]].expires - s.now <= 0 {
      LoopOthers(Resolve(s, q, Failure(Expired, false)), q, p);
    }
  }

  lemma {:induction false} StepOthers(l: Limits, s: State, ev: Event, p: Peer)
    requires s.queues.Keys == s.workers.Keys && p in s.workers && s.workers[p] == Dead
    requires p in Step(l, s, ev).workers
    ensures Step(l, s, ev).workers[p] == Dead && p in Step(l, s, ev).queues && s.queues[p] <= Step(l, s, ev).queues[p]
  {
    hide Loop, Inv, Load, CancelAll, Noted, Queued, Resolve;
    match ev {
      case Launch(q) => if q != p { LoopOthers(s, q, p); }
      case Dispatch(q, routeOk) => if q != p { ResolvedOthers(s, q, p, Failure(RouteChanged, false)); }
      case Reply(q, answered) =>
        var o := AnswerOf(s, q, answered);
        if q != p { ResolvedOthers(s, q, p, o); }
      case OperationError(q) => if q != p { ResolvedOthers(s, q, p, Failure(Failed, true)); }
      case Timeout(q) => if q != p { ResolvedOthers(s, q, p, Failure(TimedOut, true)); }
      case Cancel(q) => if q != p { ResolvedOthers(s, q, p, Failure(Cancelled, true)); }
      case _ =>
    }
  }

  /** One peer's outcome, and what its worker does next, leave every other worker and queue alone. */
  lemma {:induction false} ResolvedOthers(s: State, q: Peer, p: Peer, o: Outcome)
    requires p != q && p in s.workers && p in s.queues
    ensures var r := Resolve(s, q, o);
      && p in Loop(r, q).workers && p in Loop(r, q).queues
      && Loop(r, q).workers[p] == s.workers[p] && Loop(r, q).queues[p] == s.queues[p]
      && p in Exit(r, q).workers && p in Exit(r, q).queues
      && Exit(r, q).workers[p] == s.workers[p] && Exit(r, q).queues[p] == s.queues[p]
  {
    hide Loop;
    LoopOthers(Resolve(s, q, o), q, p);
  }

  /** A worker whose task is over: cleaned up, or cancelled before it ran. */
  predicate Ended(s: State, p: Peer) { p !in s.workers || s.workers[p] == Dead }

  /** At some point of the run this worker was cancelled before its first resumption, and it is still there. */
  ghost predicate CancelledEarly(l: Limits, evs: seq<Event>, p: Peer) {
    exists i :: 0 <= i < |evs| && CancelledAt(l, evs, p, i)
  }

  ghost predicate CancelledAt(l: Limits, evs: seq<Event>, p: Peer, i: nat)
    requires i < |evs|
  {
    && evs[i] == Cancel(p) && p in Run(l, evs[..i]).workers && Run(l, evs[..i]).workers[p] == Starting
    && forall j | i <= j <= |evs| :: p in Run(l, evs[..j]).workers
  }

  lemma {:induction false} LoopNotDead(s: State, q: Peer, p: Peer)
    requires p in Loop(s, q).workers && Loop(s, q).workers[p] == Dead
    ensures p in s.workers && s.workers[p] == Dead
    decreases if q in s.queues then |s.queues[q]| else 0
  {
    if HasHead(s, q) && !s.closed && s.requests[s.queues[q][0]].expires - s.now <= 0 {
      LoopNotDead(Resolve(s, q, Failure(Expired, false)), q, p);
    }
  }

  /** Only the cancellation of a worker that has not run leaves it dead. */
  lemma {:induction false} StepDead(l: Limits, s: State, ev: Event, p: Peer)
    requires s.queues.Keys == s.workers.Keys && p in Step(l, s, ev).workers
    ensures Step(l, s, ev).workers[p] == Dead <==>
      p in s.workers && (s.workers[p] == Dead || (ev == Cancel(p) && s.workers[p] == Starting))
  {
    hide Inv, Load, CancelAll, Noted, Queued;
    if p in s.workers && s.workers[p] == Dead { StepOthers(l, s, ev, p); }
    else if Step(l, s, ev).workers[p] == Dead { StepNotDead(l, s, ev, p); }
  }

  lemma {:induction false} StepNotDead(l: Limits, s: State, ev: Event, p: Peer)
    requires p in Step(l, s, ev).workers && Step(l, s, ev).workers[p] == Dead && !(p in s.workers && s.workers[p] == Dead)
    ensures ev == Cancel(p) && p in s.workers && s.workers[p] == Starting
  {
    hide Loop, Inv, Load, CancelAll, Noted, Queued;
    match ev {
      case Launch(q) => if q in s.workers && s.workers[q] == Starting { LoopNotDead(s, q, p); }
      case Dispatch(q, routeOk) =>
        if HasHead(s, q) && q in s.workers && s.workers[q] == Waiting(false) && !routeOk {
          LoopNotDead(Resolve(s, q, Failure(RouteChanged, false)), q, p);
        }
      case Reply(q, answered) =>
        var o := AnswerOf(s, q, answered);
        if q in s.workers && s.workers[q] == Waiting(true) { LoopNotDead(Resolve(s, q, o), q, p); }
      case OperationError(q) =>
        if q in s.workers && s.workers[q] == Waiting(true) { LoopNotDead(Resolve(s, q, Failure(Failed, true)), q, p); }
      case Timeout(q) =>
        if q in s.workers && s.workers[q].Waiting? { LoopNotDead(Resolve(s, q, Failure(TimedOut, true)), q, p); }
      case _ =>
    }
  }

  lemma {:induction false} KeysAgree(l: Limits, evs: seq<Event>)
    ensures Run(l, evs).queues.Keys == Run(l, evs).workers.Keys
  {
    RunInv(l, evs);
  }

  /** Over every run a worker is dead exactly when it was cancelled before its first resumption. */
  lemma {:induction false} DeadIff(l: Limits, evs: seq<Event>, p: Peer)
    requires p in Run(l, evs).workers
    ensures Run(l, evs).workers[p] == Dead <==> CancelledEarly(l, evs, p)
    decreases |evs|
  {
    hide Step;
    if evs != [] {
      var n := |evs| - 1;
      var init := evs[..n];
      var s := Run(l, init);
      assert evs[..|evs|] == evs && init[..n] == init;
      forall j | 0 <= j <= n ensures init[..j] == evs[..j] {}
      KeysAgree(l, init);
      StepDead(l, s, evs[n], p);
      hide Run;
      if p in s.workers {
        DeadIff(l, init, p);
        EarlySplits(l, evs, p);
      } else {
        forall i | 0 <= i < |evs| ensures !CancelledAt(l, evs, p, i) { assert evs[..n] == init; }
      }
    }
  }

  lemma {:induction false} EarlySplits(l: Limits, evs: seq<Event>, p: Peer)
    requires evs != [] && p in Run(l, evs).workers && p in Run(l, evs[..|evs| - 1]).workers
    ensures var n := |evs| - 1; var init := evs[..n];
      CancelledEarly(l, evs, p) <==>
        CancelledEarly(l, init, p) || (evs[n] == Cancel(p) && Run(l, init).workers[p] == Starting)
  {
    hide Run;
    var n := |evs| - 1;
    var init := evs[..n];
    assert evs[..|evs|] == evs && init[..n] == init;
    forall j | 0 <= j <= n ensures init[..j] == evs[..j] {}
    forall i | 0 <= i < n ensures CancelledAt(l, evs, p, i) <==> CancelledAt(l, init, p, i) {
      assert evs[i] == init[i];
      if CancelledAt(l, evs, p, i) { forall j | i <= j <= n ensures p in Run(l, init[..j]).workers { assert p in Run(l, evs[..j]).workers; } }
      if CancelledAt(l, init, p, i) {
        forall j | i <= j <= |evs| ensures p in Run(l, evs[..j]).workers { if j <= n { assert p in Run(l, init[..j]).workers; } }
      }
    }
    if evs[n] == Cancel(p) && Run(l, init).workers[p] == Starting {
      forall j | n <= j <= |evs| ensures p in Run(l, evs[..j]).workers { if j == n { assert evs[..j] == init; } else { assert evs[..j] == evs; } }
      assert CancelledAt(l, evs, p, n);
    }
  }

  lemma {:induction false} QueuedPeer(l: Limits, evs: seq<Event>, p: Peer)
    requires p in Run(l, evs).workers
    ensures p in Run(l, evs).queues && Run(l, evs).queues[p] != []
    ensures var s := Run(l, evs);
      forall id | id in s.queues[p] :: id < |s.requests| && s.requests[id].peer == p && Queued(s, id)
  {
    RunInv(l, evs);
    var s := Run(l, evs);
    assert PeerOk(s, p) && QueueOk(s, p);
  }

  /**
   * Exactly which ended workers leave something unreported: those still registered,
   * which were cancelled before their first resumption.
   */
  lemma {:induction false} WorkerUnreportedIff(l: Limits, evs: seq<Event>, p: Peer)
    requires Ended(Run(l, evs), p)
    ensures var s := Run(l, evs);
      (exists id :: 0 <= id < |s.requests| && s.requests[id].peer == p && s.requests[id].notices == []) <==>
        p in s.workers && CancelledEarly(l, evs, p)
  {
    hide CancelledEarly, Queued;
    var s := Run(l, evs);
    if p in s.workers {
      DeadIff(l, evs, p);
      QueuedPeer(l, evs, p);
      assert s.queues[p][0] in s.queues[p];
      OneTerminalCallback(l, evs, s.queues[p][0]);
    } else {
      forall id | 0 <= id < |s.requests| && s.requests[id].peer == p ensures s.requests[id].notices != [] {
        OneTerminalCallback(l, evs, id);
      }
    }
  }

  lemma {:induction false} RunGrows(l: Limits, evs: seq<Event>, i: nat, j: nat)
    requires i <= j <= |evs|
    ensures Grows(Run(l, evs[..i]), Run(l, evs[..j]))
    decreases j - i
  {
    hide Step, Grows;
    if i == j {
      SelfGrows(Run(l, evs[..i]));
    } else {
      RunGrows(l, evs, i, j - 1);
      assert evs[..j][..j - 1] == evs[..j - 1];
      StepGrows(l, Run(l, evs[..j - 1]), evs[j - 1]);
      GrowsTransitive(Run(l, evs[..i]), Run(l, evs[..j - 1]), Run(l, evs[..j]));
    }
  }

  lemma {:induction false} SelfGrows(s: State)
    ensures Grows(s, s)
  {}

  lemma {:induction false} LoopAdds(s: State, p: Peer)
    ensures |Loop(s, p).requests| == |s.requests|
    decreases if p in s.queues then |s.queues[p]| else 0
  {
    if HasHead(s, p) && !s.closed && s.requests[s.queues[p][0]].expires - s.now <= 0 {
      LoopAdds(Resolve(s, p, Failure(Expired, false)), p);
    }
  }

  /** A request that a step adds is unreported. */
  lemma {:induction false} StepAdds(l: Limits, s: State, ev: Event, id: nat)
    requires |s.requests| <= id < |Step(l, s, ev).requests|
    ensures Step(l, s, ev).requests[id].notices == []
  {
    hide Loop, Load, Queued;
    match ev {
      case Launch(p) => LoopAdds(s, p);
      case Dispatch(p, routeOk) => LoopAdds(Resolve(s, p, Failure(RouteChanged, false)), p);
      case Reply(p, answered) =>
        LoopAdds(Resolve(s, p, AnswerOf(s, p, answered)), p);
      case OperationError(p) => LoopAdds(Resolve(s, p, Failure(Failed, true)), p);
      case Timeout(p) => LoopAdds(Resolve(s, p, Failure(TimedOut, true)), p);
      case _ =>
    }
  }

  /** What a worker cancelled at step `i` leaves unreported: what was queued for it, and what came later. */
  ghost predicate LeftBehind(l: Limits, evs: seq<Event>, id: nat, i: nat)
    requires i <= |evs|
  {
    Queued(Run(l, evs[..i]), id) || id >= |Run(l, evs[..i]).requests|
  }

  lemma {:induction false} StaysUnreported(l: Limits, evs: seq<Event>, p: Peer, i: nat, j: nat, id: nat)
    requires i < j <= |evs| && CancelledAt(l, evs, p, i) && LeftBehind(l, evs, id, i)
    requires id < |Run(l, evs[..j]).requests| && Run(l, evs[..j]).requests[id].peer == p
    ensures Run(l, evs[..j]).requests[id].notices == [] && Run(l, evs[..j]).workers[p] == Dead
    decreases j
  {
    hide Step, Queued;
    var k := j - 1;
    assert evs[..j][..k] == evs[..k];
    var s, s' := Run(l, evs[..k]), Run(l, evs[..j]);
    RunInv(l, evs[..k]);
    KeysAgree(l, evs[..k]);
    StepDead(l, s, evs[k], p);
    RunGrows(l, evs, k, j);
    if k == i {
      CancelKeeps(l, s, p);
      if id < |s.requests| { OneTerminalCallback(l, evs[..k], id); }
    } else {
      if id < |s.requests| {
        StaysUnreported(l, evs, p, i, k, id);
        OneTerminalCallback(l, evs[..k], id);
        CancelledBeforeStart(l, s, p, evs[k]);
        StillQueued(s, s', p, id);
        OneTerminalCallback(l, evs[..j], id);
      } else {
        DeadAt(l, evs, p, i, k);
        StepAdds(l, s, evs[k], id);
      }
    }
  }

  lemma {:induction false} CancelKeeps(l: Limits, s: State, p: Peer)
    ensures p in s.workers && s.workers[p] == Starting ==> Step(l, s, Cancel(p)).requests == s.requests
  {}

  lemma {:induction false} StillQueued(s: State, s': State, p: Peer, id: nat)
    requires Queued(s, id) && id < |s'.requests| && s'.requests[id].peer == p == s.requests[id].peer
    requires p in s.queues && p in s'.queues && s.queues[p] <= s'.queues[p]
    ensures Queued(s', id)
  {}

  lemma {:induction false} DeadAt(l: Limits, evs: seq<Event>, p: Peer, i: nat, k: nat)
    requires i < k <= |evs| && CancelledAt(l, evs, p, i)
    ensures p in Run(l, evs[..k]).workers && Run(l, evs[..k]).workers[p] == Dead
    decreases k
  {
    hide Step;
    assert evs[..k][..k - 1] == evs[..k - 1];
    KeysAgree(l, evs[..k - 1]);
    StepDead(l, Run(l, evs[..k - 1]), evs[k - 1], p);
    if k - 1 > i { DeadAt(l, evs, p, i, k - 1); }
  }

  /**
   * Exactly which requests of an ended worker go unreported: those that were queued for
   * it when it was cancelled before its first resumption, and those submitted since.
   */
  lemma {:induction false} UnreportedIff(l: Limits, evs: seq<Event>, id: nat)
    requires id < |Run(l, evs).requests| && Ended(Run(l, evs), Run(l, evs).requests[id].peer)
    ensures var r := Run(l, evs).requests[id];
      r.notices == [] <==> exists i :: 0 <= i < |evs| && CancelledAt(l, evs, r.peer, i) && LeftBehind(l, evs, id, i)
  {
    hide Queued, Step;
    var s := Run(l, evs);
    var p := s.requests[id].peer;
    assert evs[..|evs|] == evs;
    if s.requests[id].notices == [] {
      WorkerUnreportedIff(l, evs, p);
      var i :| 0 <= i < |evs| && CancelledAt(l, evs, p, i);
      RunGrows(l, evs, i, |evs|);
      if id < |Run(l, evs[..i]).requests| { OneTerminalCallback(l, evs[..i], id); }
      assert LeftBehind(l, evs, id, i);
    } else if exists i :: 0 <= i < |evs| && CancelledAt(l, evs, p, i) && LeftBehind(l, evs, id, i) {
      var i :| 0 <= i < |evs| && CancelledAt(l, evs, p, i) && LeftBehind(l, evs, id, i);
      StaysUnreported(l, evs, p, i, |evs|, id);
      assert false;
    }
  }

  /** Such a run: one request accepted, its worker cancelled at once, nothing reported. */
  lemma {:induction false} UnreportedRun(l: Limits, p: Peer, serial: string, action: string)
    requires l.capacity >= 1
    ensures var s := Run(l, [Submit(p, serial, action, true), Cancel(p)]);
      |s.requests| == 1 && s.requests[0].peer == p && Ended(s, p) && s.requests[0].notices == [] && Queued(s, 0)
  {
    var a, b: Event := Submit(p, serial, action, true), Cancel(p);
    assert [a, b][..1] == [a] && [a][..0] == [];
    assert Load(INITIAL.queues) == 0;
    assert Run(l, [a]) == Step(l, INITIAL, a);
    assert Run(l, [a, b]) == Step(l, Step(l, INITIAL, a), b);
  }

  // ----------------------------------------------------------------- deadlines

  /**
   * Ideal timers and prompt workers: time does not pass a deadline of an
   * operation in flight, nor any worker that could already run, and workers are
   * cancelled by `close` alone.
   */
  ghost predicate Ideal(s: State, ev: Event) {
    && (ev.Cancel? ==> s.closed)
    && (ev.Tick? && ev.to > s.now ==>
          forall p | p in s.workers :: s.workers[p].Waiting? && HasHead(s, p) && ev.to <= s.requests[s.queues[p][0]].expires)
  }

  ghost predicate AllIdeal(l: Limits, evs: seq<Event>) {
    forall i | 0 <= i < |evs| :: Ideal(Run(l, evs[..i]), evs[i])
  }

  /** No deadline has been missed so far. */
  ghost predicate Timely(s: State) {
    forall id | 0 <= id < |s.requests| ::
      && (Queued(s, id) ==> s.now <= s.requests[id].expires)
      && forall k | 0 <= k < |s.requests[id].notices| :: s.requests[id].notices[k].at <= s.requests[id].expires
  }

  lemma {:induction false} ResolveTimely(s: State, p: Peer, o: Outcome)
    requires Timely(s) && (p in s.queues ==> QueueOk(s, p))
    ensures Timely(Resolve(s, p, o))
  {
    if HasHead(s, p) {
      ResolveQueued(s, p, o);
      hide QueueOk;
    }
  }

  lemma {:induction false} ExitTimely(s: State, p: Peer)
    requires Timely(s) && (p in s.queues ==> QueueOk(s, p))
    ensures Timely(Exit(s, p))
  {
    var s' := Exit(s, p);
    if p in s.queues {
      forall id | 0 <= id < |s.requests| ensures Queued(s', id) ==> Queued(s, id) { }
      forall id | id in s.queues[p] ensures Queued(s, id) { }
    }
  }

  lemma {:induction false} LoopTimely(s: State, p: Peer)
    requires Timely(s) && (p in s.queues ==> QueueOk(s, p))
    ensures Timely(Loop(s, p))
    decreases if p in s.queues then |s.queues[p]| else 0
  {
    if !HasHead(s, p) || s.closed {
      ExitTimely(s, p);
    } else if s.requests[s.queues[p][0]].expires - s.now <= 0 {
      ResolveTimely(s, p, Failure(Expired, false));
      ResolveQueued(s, p, Failure(Expired, false));
      LoopTimely(Resolve(s, p, Failure(Expired, false)), p);
    } else {
      var s' := Loop(s, p);
      forall id | 0 <= id < |s.requests| ensures Queued(s', id) == Queued(s, id) { }
    }
  }

  lemma {:induction false} FinishTimely(s: State, p: Peer, o: Outcome)
    requires Timely(s) && (p in s.queues ==> QueueOk(s, p))
    ensures Timely(Loop(Resolve(s, p, o), p)) && Timely(Exit(Resolve(s, p, o), p))
  {
    ResolveTimely(s, p, o);
    if HasHead(s, p) { ResolveQueued(s, p, o); }
    LoopTimely(Resolve(s, p, o), p);
    ExitTimely(Resolve(s, p, o), p);
  }

  /** Requests behind the head were submitted no earlier, so they expire no earlier. */
  lemma {:induction false} TickTimely(l: Limits, s: State, to: int)
    requires Inv(l, s) && Timely(s) && Ideal(s, Tick(to)) && to > s.now
    ensures Timely(s.(now := to))
  {
    var s' := s.(now := to);
    forall id | 0 <= id < |s.requests| ensures Queued(s', id) ==> to <= s.requests[id].expires {
      if Queued(s', id) {
        assert Queued(s, id);
        var p := s.requests[id].peer;
        assert PeerOk(s, p) && QueueOk(s, p);
        var head := s.queues[p][0];
        assert head <= id;
        assert s.requests[head].submitted <= s.requests[id].submitted;
      }
    }
  }

  lemma {:induction false} SubmitTimely(l: Limits, s: State, peer: Peer, serial: string, action: string, created: bool)
    requires Inv(l, s) && Timely(s)
    ensures Timely(SubmitStep(l, s, peer, serial, action, created))
  {
    var s' := SubmitStep(l, s, peer, serial, action, created);
    if s.closed || Load(s.queues) >= l.capacity {
    } else if peer !in s.workers && !created {
      assert s.queues - {peer} == s.queues;
    } else {
      SubmitQueued(l, s, s', peer, s'.requests[|s.requests|]);
      AppendTimely(s, s', s'.requests[|s.requests|]);
    }
  }

  lemma {:induction false} AppendTimely(s: State, s': State, r: Request)
    requires Timely(s) && s'.requests == s.requests + [r] && s'.now == s.now
    requires r.notices == [] && s.now <= r.expires
    requires forall x | 0 <= x < |s.requests| :: Queued(s', x) == Queued(s, x)
    ensures Timely(s')
  {
    hide Queued;
  }

  lemma {:induction false} CallTimely(l: Limits, s: State, p: Peer)
    requires Inv(l, s) && Timely(s) && p in s.workers && s.workers[p] == Waiting(false)
    ensures Timely(DispatchStep(s, p, true))
  {
    var s' := DispatchStep(s, p, true);
    assert PeerOk(s, p);
    forall id | 0 <= id < |s.requests| ensures Queued(s', id) == Queued(s, id) { }
  }

  lemma {:induction false} StepTimely(l: Limits, s: State, ev: Event)
    requires Inv(l, s) && Timely(s) && Ideal(s, ev)
    ensures Timely(Step(l, s, ev))
  {
    forall p | p in s.queues ensures QueueOk(s, p) { }
    hide Loop, Exit, Resolve, SubmitStep, Load, QueueOk, LogOk, PeerOk, Timely;
    match ev {
      case Submit(peer, serial, action, created) => SubmitTimely(l, s, peer, serial, action, created);
      case Launch(p) => LoopTimely(s, p);
      case Dispatch(p, routeOk) =>
        if p in s.workers && s.workers[p] == Waiting(false) && routeOk { CallTimely(l, s, p); }
        FinishTimely(s, p, Failure(RouteChanged, false));
      case Reply(p, answered) =>
        FinishTimely(s, p, AnswerOf(s, p, answered));
      case OperationError(p) => FinishTimely(s, p, Failure(Failed, true));
      case Timeout(p) => FinishTimely(s, p, Failure(TimedOut, true));
      case Cancel(p) =>
        FinishTimely(s, p, Failure(Cancelled, true));
        if p in s.workers && s.workers[p] == Starting { SameQueuesTimely(s, CancelStep(s, p)); }
      case CloseBegin => SameQueuesTimely(s, s.(closed := true));
      case CloseEnd => CloseEndTimely(s);
      case Tick(to) => if to > s.now { TickTimely(l, s, to); }
    }
  }

  lemma {:induction false} SameQueuesTimely(s: State, s': State)
    requires Timely(s) && s'.requests == s.requests && s'.queues == s.queues && s'.now == s.now
    ensures Timely(s')
  {
    forall id | 0 <= id < |s.requests| ensures Queued(s', id) == Queued(s, id) { }
  }

  lemma {:induction false} CloseEndTimely(s: State)
    requires Timely(s)
    ensures Timely(CloseEndStep(s))
  {}

  /**
   * Deadlines: with ideal timers and no outside cancellation, every request is
   * resolved no later than its submission time plus the lifetime, however many
   * requests were queued in front of it.
   */
  lemma {:induction false} ResolvedByDeadline(l: Limits, evs: seq<Event>)
    requires AllIdeal(l, evs)
    ensures var s := Run(l, evs);
      forall id | 0 <= id < |s.requests| ::
        && (s.requests[id].notices == [] ==> s.now <= s.requests[id].submitted + l.lifetime)
        && forall n | n in s.requests[id].notices :: n.at <= s.requests[id].submitted + l.lifetime
  {
    RunInv(l, evs);
    RunTimely(l, evs);
    var s := Run(l, evs);
    assert ClockOk(l, s);
    forall id | 0 <= id < |s.requests|
      ensures s.requests[id].notices == [] ==> s.now <= s.requests[id].expires
      ensures forall n | n in s.requests[id].notices :: n.at <= s.requests[id].expires
    {
      assert RequestOk(s, id);
    }
  }

  lemma {:induction false} RunTimely(l: Limits, evs: seq<Event>)
    requires AllIdeal(l, evs)
    ensures Timely(Run(l, evs))
    decreases |evs|
  {
    if evs != [] {
      var init, ev := evs[..|evs| - 1], evs[|evs| - 1];
      forall i | 0 <= i < |init| ensures Ideal(Run(l, init[..i]), init[i]) {
        assert init[..i] == evs[..i];
        assert Ideal(Run(l, evs[..i]), evs[i]);
      }
      RunTimely(l, init);
      RunInv(l, init);
      assert Ideal(Run(l, evs[..|evs| - 1]), evs[|evs| - 1]);
      StepTimely(l, Run(l, init), ev);
    }
  }
}
