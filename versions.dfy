/** How the two handler sets relate, and what holds of the counters over any
    sequence of requests served by either of them. */
module Versions {
  import opened Notes
  import Routes
  import MainApp

  /** Which handler set serves the requests: the blueprint of the `app`
      package, or the standalone application module. */
  datatype Handlers = Blueprint | Standalone

  function HandleBy(h: Handlers, s: State, verb: Verb, id: int, payload: Payload): Step {
    match h
    case Blueprint => Routes.Handle(s, verb, id, payload)
    case Standalone => MainApp.Handle(s, verb, id, payload)
  }

  /** On an id that has a row the two versions of handle_note do the same thing. */
  lemma SameOnStoredRows(s: State, verb: Verb, id: int, payload: Payload)
    requires id in s.notes
    ensures Routes.Handle(s, verb, id, payload) == MainApp.Handle(s, verb, id, payload)
  {
  }

  /** On an id without a row both count the request and leave the table alone,
      but only the blueprint answers; the standalone handler raises. HEAD
      falls through both in the same way. */
  lemma DifferOnMissingRows(s: State, verb: Verb, id: int, payload: Payload)
    requires id !in s.notes
    ensures Routes.Handle(s, verb, id, payload).state == MainApp.Handle(s, verb, id, payload).state
    ensures verb != Head ==> Routes.Handle(s, verb, id, payload).outcome == Reply(NOT_FOUND, IdBody(id))
    ensures verb != Head ==> MainApp.Handle(s, verb, id, payload).outcome.Raised?
    ensures verb == Head ==>
      Routes.Handle(s, verb, id, payload).outcome == MainApp.Handle(s, verb, id, payload).outcome
  {
  }

  /** One request as served: a POST with the key the database assigns to it,
      or a request on `/note/<id>`. */
  datatype Event =
    | PostEvent(payload: Payload, newId: int)
    | NoteEvent(verb: Verb, id: int, payload: Payload)

  /** The counter a request is counted on, if any: HEAD is counted on none. */
  function CounterFor(e: Event): Option<Counter> {
    match e
    case PostEvent(_, _) => Some(PostCounter)
    case NoteEvent(verb, _, _) => CounterOf(verb)
  }

  /** The database only assigns keys that no row has. */
  predicate Assignable(s: State, e: Event) {
    e.PostEvent? ==> e.newId !in s.notes
  }

  function Serve(h: Handlers, s: State, e: Event): (r: Step)
    requires Assignable(s, e)
    ensures CountedOn(s.counters, r.state.counters, CounterFor(e))
  {
    match e
    case PostEvent(payload, newId) => Create(s, payload, newId)
    case NoteEvent(verb, id, payload) => HandleBy(h, s, verb, id, payload)
  }

  /** Every POST of `events`, served in order from `s`, gets an unused key. */
  predicate Replayable(h: Handlers, s: State, events: seq<Event>)
    decreases |events|
  {
    events == [] ||
    (Assignable(s, events[0]) && Replayable(h, Serve(h, s, events[0]).state, events[1..]))
  }

  /** The state after serving `events` in order, one request at a time. */
  function Run(h: Handlers, s: State, events: seq<Event>): State
    requires Replayable(h, s, events)
    decreases |events|
  {
    if events == [] then s else Run(h, Serve(h, s, events[0]).state, events[1..])
  }

  /** How many of `events` are counted on `c`. */
  function Count(events: seq<Event>, c: Counter): nat
    decreases |events|
  {
    if events == [] then 0
    else (if CounterFor(events[0]) == Some(c) then 1 else 0) + Count(events[1..], c)
  }

  /** How many of `events` are counted at all, that is, are not HEAD. */
  function Counted(events: seq<Event>): nat
    decreases |events|
  {
    if events == [] then 0
    else (if CounterFor(events[0]).Some? then 1 else 0) + Counted(events[1..])
  }

  /** Each counter ends up raised by exactly the number of requests of its kind. */
  lemma {:induction false} RunCounts(h: Handlers, s: State, events: seq<Event>, c: Counter)
    requires Replayable(h, s, events)
    ensures Run(h, s, events).counters.Of(c) == s.counters.Of(c) + Count(events, c)
    decreases |events|
  {
    if events != [] {
      var next := Serve(h, s, events[0]).state;
      RunCounts(h, next, events[1..], c);
    }
  }

  /** Every POST, GET, PUT and DELETE moves exactly one counter by one; HEAD moves none. */
  lemma {:induction false} RunTotal(h: Handlers, s: State, events: seq<Event>)
    requires Replayable(h, s, events)
    ensures Run(h, s, events).counters.Total() == s.counters.Total() + Counted(events)
    ensures Counted(events) <= |events|
    decreases |events|
  {
    if events != [] {
      var next := Serve(h, s, events[0]);
      if CounterFor(events[0]).Some? {
        BumpedOnlyCounts(s.counters, next.state.counters, CounterFor(events[0]).value);
      }
      RunTotal(h, next.state, events[1..]);
    }
  }

  /** No counter ever goes down. */
  lemma RunNoneDecreased(h: Handlers, s: State, events: seq<Event>)
    requires Replayable(h, s, events)
    ensures NoneDecreased(s.counters, Run(h, s, events).counters)
  {
    forall c: Counter ensures s.counters.Of(c) <= Run(h, s, events).counters.Of(c) {
      RunCounts(h, s, events, c);
    }
  }

  /** Serving `a` and then `b` is serving `a + b`. */
  lemma {:induction false} RunSplit(h: Handlers, s: State, a: seq<Event>, b: seq<Event>)
    requires Replayable(h, s, a + b)
    ensures Replayable(h, s, a)
    ensures Replayable(h, Run(h, s, a), b)
    ensures Run(h, s, a + b) == Run(h, Run(h, s, a), b)
    decreases |a|
  {
    if a == [] {
      assert a + b == b;
    } else {
      assert (a + b)[0] == a[0];
      assert (a + b)[1..] == a[1..] + b;
      RunSplit(h, Serve(h, s, a[0]).state, a[1..], b);
    }
  }

  /** The counters after any prefix of the requests are below those after all
      of them: the counters are monotone over the life of the process. */
  lemma PrefixNoneDecreased(h: Handlers, s: State, events: seq<Event>, i: nat)
    requires Replayable(h, s, events)
    requires i <= |events|
    ensures Replayable(h, s, events[..i])
    ensures NoneDecreased(Run(h, s, events[..i]).counters, Run(h, s, events).counters)
  {
    assert events[..i] + events[i..] == events;
    RunSplit(h, s, events[..i], events[i..]);
    RunNoneDecreased(h, Run(h, s, events[..i]), events[i..]);
  }
}
