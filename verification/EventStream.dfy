/** The whole channel: gateway state, event stream text, line reader and coordinator copy. */
module EventStream {
  import opened Basics
  import opened Replica
  import G = Gateway
  import Sse
  import SseBytes
  import Utf8

  type EventJson = Sse.Json<Payload, Message>

  /**
   * The items one connection writes when it is opened after `start` calls: the ready
   * frame and one frame for each event, with heartbeats anywhere between them.
   */
  ghost predicate Connection(json: EventJson, items: seq<Sse.Item<Payload>>, cfg: G.Config, calls: seq<G.Call>, start: nat)
    requires start <= |calls|
  {
    && Sse.Writable(json, items)
    && (forall p :: json.meaning(p) == MessageOf(p))
    && Sse.Meanings(json, items) == Stream(cfg, calls, start)
  }

  lemma {:induction false} MeaningsPrefix(json: EventJson, items: seq<Sse.Item<Payload>>, m: nat)
    requires m <= |items|
    ensures Sse.Meanings(json, items[..m]) <= Sse.Meanings(json, items)
    decreases |items|
  {
    if m < |items| {
      var n := |items| - 1;
      MeaningsPrefix(json, items[..n], m);
      assert items[..n][..m] == items[..m];
    } else {
      assert items[..m] == items;
    }
  }

  /**
   * Break the connection after any `c` bytes, by an end of the body or by a failure.
   * Either the ready frame was not complete and the coordinator keeps what it had, or
   * its copy is the gateway's state after some call `j` made since the connection was
   * opened: the last one all of whose announcements were read. Nothing broken off means
   * the current state. The listener goes on to reconnect unless the body ended inside a
   * character: that decoding error is caught nowhere, so it ends the listening task.
   */
  lemma {:induction false} CopyIsAPastState(json: EventJson, items: seq<Sse.Item<Payload>>, cfg: G.Config, calls: seq<G.Call>,
                                            start: nat, c: nat, ended: bool, d: Data) returns (j: nat, q: nat)
    requires start <= |calls| && Connection(json, items, cfg, calls, start)
    requires c <= |SseBytes.Sent(json, items)|
    ensures start <= j <= |calls|
    ensures var read := SseBytes.Receive(json, SseBytes.Sent(json, items)[..c], ended).Yielded();
      if read == [] then MergeAll(d, read) == d
      else MergeAll(d, read) == ViewOf(G.Run(cfg, calls[..j])) && Reached(Bursts(cfg, calls, start), |read| - 1, j - start)
    ensures c == |SseBytes.Sent(json, items)| ==>
      j == |calls| &&
      MergeAll(d, SseBytes.Receive(json, SseBytes.Sent(json, items)[..c], ended).Yielded()) == ViewOf(G.Run(cfg, calls))
    ensures Utf8.WholeChars(Sse.Wire(json, items), c, q)
    ensures SseBytes.Receive(json, SseBytes.Sent(json, items)[..c], ended).Raised? <==>
      ended && |Utf8.Encode(Sse.Wire(json, items)[..q])| < c
  {
    hide Sse.Wire, SseBytes.Receive, SseBytes.Sent, Sse.Meanings, Sse.Writable, G.Run, ViewOf, Reached, Flat, Bursts, MessageOf;
    hide Utf8.WholeChars, Utf8.Encode;
    var m: nat;
    q, m := SseBytes.CutBytes(json, items, c, ended);
    var stream := Stream(cfg, calls, start);
    MeaningsPrefix(json, items, m);
    var read := SseBytes.Receive(json, SseBytes.Sent(json, items)[..c], ended).Yielded();
    assert items[..|items|] == items;
    assert read == stream[..|read|];
    if read == [] {
      j := start;
    } else {
      j := ReplicaLags(cfg, calls, start, |read| - 1, d);
      assert calls[..|calls|] == calls;
    }
  }
}
