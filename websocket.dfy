/** One streaming connection, src/server/websocket.rs: `handle_ws_connection`
    loops over a `tokio::select!` between a one-second timer and the next
    inbound frame. Here the race is replaced by the trace of events that won
    it, each tick carrying what `get_metrics` returned at that moment and the
    outcomes of `serde_json::to_string` and `ws_tx.send`. */
module WebSocket {
  import opened Util
  import opened Metrics

  datatype Outcome = Success | Failure

  datatype Event =
    | Tick(store: seq<ExtendedSystemData>, serialization: Outcome, send: Outcome)
    | InboundOk      // `Some(Ok(_))` from `ws_rx.next()`
    | InboundErr     // `Some(Err(_))` from `ws_rx.next()`

  datatype ConnState = Open | Closed

  /** What handling one event while open does: the next state, and the snapshot
      pushed to the client, if any. */
  datatype Step = Step(state: ConnState, push: Option<ExtendedSystemData>)

  /** A tick that finds a snapshot, serializes it and sends it. */
  predicate Delivers(e: Event)
  {
    e.Tick? && e.store != [] && e.serialization == Success && e.send == Success
  }

  /** An event after which the loop breaks: a failed send or an inbound error. */
  predicate Closes(e: Event)
  {
    e.InboundErr? || (e.Tick? && e.store != [] && e.serialization == Success && e.send == Failure)
  }

  /** One arm of the `select!`, taken while the connection is open. */
  function OnEvent(e: Event): (s: Step)
    ensures s.push.Some? <==> Delivers(e)
    ensures s.push.Some? ==> s.push.value == e.store[|e.store| - 1]
    ensures s.state == Closed <==> Closes(e)
  {
    match e
    case Tick(store, serialization, send) =>
      if store == [] then Step(Open, None)
      else if serialization == Failure then Step(Open, None)
      else if send == Failure then Step(Closed, None)
      else Step(Open, Some(store[|store| - 1]))
    case InboundOk => Step(Open, None)
    case InboundErr => Step(Closed, None)
  }

  /** The outcome of a connection over a trace: its final state, the snapshots
      pushed in order, and how many events the loop consumed before it ended
      (the events after a close are never looked at). */
  datatype Session = Session(state: ConnState, pushes: seq<ExtendedSystemData>, consumed: nat)

  function Run(events: seq<Event>): (r: Session)
    ensures r.consumed <= |events|
    ensures r.state == Open ==> r.consumed == |events|
  {
    if events == [] then Session(Open, [], 0)
    else
      var s := OnEvent(events[0]);
      var pushed := if s.push.Some? then [s.push.value] else [];
      if s.state == Closed then Session(Closed, pushed, 1)
      else
        var rest := Run(events[1..]);
        Session(rest.state, pushed + rest.pushes, rest.consumed + 1)
  }

  /** The session of a loop that has handled `consumed` events, pushed `pushes`
      and is now in `state`, when `rest` are the events still to come. */
  function Resume(state: ConnState, pushes: seq<ExtendedSystemData>, consumed: nat, rest: seq<Event>): Session
  {
    if state == Closed then Session(Closed, pushes, consumed)
    else
      var r := Run(rest);
      Session(r.state, pushes + r.pushes, consumed + r.consumed)
  }

  /** Handling the next event while open moves the loop one step along `Run`. */
  lemma ResumeStep(pushes: seq<ExtendedSystemData>, consumed: nat, rest: seq<Event>)
    requires rest != []
    ensures var s := OnEvent(rest[0]);
            Resume(Open, pushes, consumed, rest) ==
            Resume(s.state, pushes + (if s.push.Some? then [s.push.value] else []), consumed + 1, rest[1..])
  {
  }

  /** `handle_ws_connection`: the loop, stepping the state over the event trace
      until the trace ends or an arm breaks. */
  method HandleWsConnection(events: seq<Event>) returns (state: ConnState, pushes: seq<ExtendedSystemData>, consumed: nat)
    ensures Session(state, pushes, consumed) == Run(events)
  {
    state, pushes, consumed := Open, [], 0;
    while consumed < |events| && state == Open
      invariant consumed <= |events|
      invariant Run(events) == Resume(state, pushes, consumed, events[consumed..])
      decreases |events| - consumed
    {
      ghost var before := pushes;
      ghost var s := OnEvent(events[consumed]);
      ResumeStep(pushes, consumed, events[consumed..]);
      assert events[consumed..][0] == events[consumed];
      assert events[consumed..][1..] == events[consumed + 1..];
      match events[consumed] {
        case Tick(store, serialization, send) =>
          var metricsData := store;
          if metricsData != [] {
            var latest := metricsData[|metricsData| - 1];
            if serialization == Success {
              if send == Success {
                pushes := pushes + [latest];
              } else {
                state := Closed;
              }
            }
          }
        case InboundOk =>
        case InboundErr =>
          state := Closed;
      }
      assert state == s.state && pushes == before + (if s.push.Some? then [s.push.value] else []);
      consumed := consumed + 1;
    }
    if state == Open { assert events[consumed..] == []; }
  }

  /** The snapshots a trace would push if every event were handled. */
  function Delivered(events: seq<Event>): (r: seq<ExtendedSystemData>)
  {
    if events == [] then []
    else (if Delivers(events[0]) then [events[0].store[|events[0].store| - 1]] else []) + Delivered(events[1..])
  }

  function TickCount(events: seq<Event>): nat
  {
    if events == [] then 0 else (if events[0].Tick? then 1 else 0) + TickCount(events[1..])
  }

  /** The connection closes exactly when some event closes it; it then stops at
      the first such event; and what it pushes is the latest snapshot of every
      delivering tick up to there. */
  lemma {:induction false} RunCharacterized(events: seq<Event>)
    ensures Run(events).state == Closed <==> exists i :: 0 <= i < |events| && Closes(events[i])
    ensures Run(events).state == Closed ==>
              Closes(events[Run(events).consumed - 1]) &&
              forall i :: 0 <= i < Run(events).consumed - 1 ==> !Closes(events[i])
    ensures Run(events).pushes == Delivered(events[..Run(events).consumed])
  {
    if events != [] {
      var r := Run(events);
      var e := events[0];
      RunCharacterized(events[1..]);
      if Closes(e) {
        assert events[..1] == [e];
        assert Delivered([e]) == [] + Delivered([]);
      } else {
        var rest := Run(events[1..]);
        assert forall i :: 1 <= i < |events| ==> events[i] == events[1..][i - 1];
        assert events[..r.consumed] == [e] + events[1..][..rest.consumed];
        if rest.state == Closed {
          var j := rest.consumed - 1;
          assert events[j + 1] == events[1..][j];
        }
        if exists i :: 0 <= i < |events| && Closes(events[i]) {
          var i :| 0 <= i < |events| && Closes(events[i]);
          assert i > 0 && events[1..][i - 1] == events[i];
        }
      }
    }
  }

  /** Once the connection has closed, later events change nothing: no push follows a close. */
  lemma {:induction false} ClosedIgnoresLaterEvents(events: seq<Event>, later: seq<Event>)
    requires Run(events).state == Closed
    ensures Run(events + later) == Run(events)
  {
    var e := events[0];
    assert (events + later)[0] == e;
    if !Closes(e) {
      assert (events + later)[1..] == events[1..] + later;
      ClosedIgnoresLaterEvents(events[1..], later);
    }
  }

  /** Every push is caused by a tick the loop handled: there are at most as many
      pushes as ticks processed while open. */
  lemma {:induction false} PushesAtMostTicks(events: seq<Event>)
    ensures |Run(events).pushes| <= TickCount(events[..Run(events).consumed])
  {
    if events != [] {
      var r := Run(events);
      var e := events[0];
      PushesAtMostTicks(events[1..]);
      if Closes(e) {
        assert events[..1] == [e];
        assert TickCount([e]) == (if e.Tick? then 1 else 0) + TickCount([]);
      } else {
        var rest := Run(events[1..]);
        assert events[..r.consumed] == [e] + events[1..][..rest.consumed];
      }
    }
  }

  /** While the store is empty nothing is pushed, and the connection stays open
      unless the client sends an error. */
  lemma {:induction false} EmptyStoreNoPush(events: seq<Event>)
    requires forall i :: 0 <= i < |events| ==> (events[i].Tick? ==> events[i].store == [])
    ensures Run(events).pushes == []
    ensures Run(events).state == Closed <==> exists i :: 0 <= i < |events| && events[i].InboundErr?
  {
    if events != [] {
      EmptyStoreNoPush(events[1..]);
      if exists i :: 0 <= i < |events| && events[i].InboundErr? {
        var i :| 0 <= i < |events| && events[i].InboundErr?;
        if i > 0 {
          assert events[1..][i - 1] == events[i];
        }
      }
      if exists i :: 0 <= i < |events[1..]| && events[1..][i].InboundErr? {
        var i :| 0 <= i < |events[1..]| && events[1..][i].InboundErr?;
        assert events[i + 1] == events[1..][i];
      }
    }
  }

  /** A tick whose serialization fails pushes nothing and keeps the connection
      open: the next tick with a snapshot, a serialization and a send that
      succeed pushes that tick's latest snapshot. */
  lemma SerializationFailureSkipsOnePush(
    first: seq<ExtendedSystemData>, firstSend: Outcome, second: seq<ExtendedSystemData>, rest: seq<Event>)
    requires second != []
    ensures Run([Tick(first, Failure, firstSend), Tick(second, Success, Success)] + rest) ==
              var r := Run(rest);
              Session(r.state, [second[|second| - 1]] + r.pushes, r.consumed + 2)
  {
    var events := [Tick(first, Failure, firstSend), Tick(second, Success, Success)] + rest;
    var tail := [Tick(second, Success, Success)] + rest;
    assert events[1..] == tail && tail[1..] == rest;
    assert OnEvent(events[0]) == Step(Open, None);
    assert OnEvent(tail[0]) == Step(Open, Some(second[|second| - 1]));
    assert Run(tail) == Session(Run(rest).state, [second[|second| - 1]] + Run(rest).pushes, Run(rest).consumed + 1);
  }

  /** An inbound `Ok` frame is accepted and ignored. */
  lemma InboundOkIgnored(rest: seq<Event>)
    ensures Run([InboundOk] + rest) ==
              var r := Run(rest);
              Session(r.state, r.pushes, r.consumed + 1)
  {
    assert ([InboundOk] + rest)[1..] == rest;
  }
}
