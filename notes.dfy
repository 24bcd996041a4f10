/** The shape both versions of the note service share: the Note row, what a
    handler reads from the JSON request body, what it answers, the four
    request counters, and the process state the handlers mutate. */
module Notes {

  datatype Option<T> = None | Some(value: T)

  /** A row of the note table: an integer primary key and a non-null content. */
  datatype Note = Note(id: int, content: string)

  /** The `content` field of the JSON request body, as a handler sees it. */
  datatype Payload =
    | Missing            // no `content` key in the body
    | Null               // `"content": null`
    | Text(text: string)

  /** The methods routed to `/note/<id>`: the three the rule lists, and
      HEAD, which the router adds to every rule that lists GET. */
  datatype Verb = Get | Put | Delete | Head

  /** The four counters created on the meter. */
  datatype Counter = GetCounter | PostCounter | PutCounter | DeleteCounter

  /** The JSON object a handler returns. */
  datatype Body = IdBody(id: int) | ContentBody(content: string) | EmptyBody

  /** Why a handler raised instead of returning a response. */
  datatype Failure =
    | MissingContent     // indexing the body with 'content' raises KeyError
    | NullContent        // the NOT NULL column rejects the commit
    | NoSuchNote         // attribute access on, or deletion of, a row that is not there
    | NoResponse         // the view fell through every branch and returned None

  /** What the framework gets back from a handler: a body with a status, or an exception. */
  datatype Outcome = Reply(status: int, body: Body) | Raised(failure: Failure)

  const OK := 200
  const CREATED := 201
  const NO_CONTENT := 204
  const NOT_FOUND := 404

  /** The counter each verb of `/note/<id>` adds 1 to; HEAD matches no
      branch and is counted on none. */
  function CounterOf(v: Verb): (c: Option<Counter>)
    ensures c == Some(GetCounter) <==> v == Get
    ensures c == Some(PutCounter) <==> v == Put
    ensures c == Some(DeleteCounter) <==> v == Delete
    ensures c.None? <==> v == Head
    ensures c != Some(PostCounter)
  {
    match v
    case Get => Some(GetCounter)
    case Put => Some(PutCounter)
    case Delete => Some(DeleteCounter)
    case Head => None
  }

  /** The failure a handler raises for a body whose content it cannot store. */
  function ContentFailure(p: Payload): (f: Failure)
    requires !p.Text?
    ensures f == MissingContent <==> p.Missing?
    ensures f == NullContent <==> p.Null?
  {
    if p.Missing? then MissingContent else NullContent
  }

  /** The values of the four counters. */
  datatype Counters = Counters(get: nat, post: nat, put: nat, delete: nat) {

    function Of(c: Counter): nat {
      match c
      case GetCounter => get
      case PostCounter => post
      case PutCounter => put
      case DeleteCounter => delete
    }

    function Total(): nat {
      get + post + put + delete
    }

    /** `add(1)` on counter `c`. */
    function Bump(c: Counter): (r: Counters)
      ensures BumpedOnly(this, r, c)
    {
      match c
      case GetCounter => this.(get := get + 1)
      case PostCounter => this.(post := post + 1)
      case PutCounter => this.(put := put + 1)
      case DeleteCounter => this.(delete := delete + 1)
    }
  }

  /** Counter `c` went up by exactly one and no other counter moved. */
  predicate BumpedOnly(before: Counters, after: Counters, c: Counter) {
    && after.Of(c) == before.Of(c) + 1
    && forall d :: d != c ==> after.Of(d) == before.Of(d)
  }

  /** Counter `c` went up by one if there is one; otherwise no counter moved. */
  predicate CountedOn(before: Counters, after: Counters, c: Option<Counter>) {
    match c
    case Some(counter) => BumpedOnly(before, after, counter)
    case None => after == before
  }

  /** No counter went down. */
  predicate NoneDecreased(before: Counters, after: Counters) {
    forall c :: before.Of(c) <= after.Of(c)
  }

  /** A single `add(1)` raises the total request count by one and lowers no counter. */
  lemma BumpedOnlyCounts(before: Counters, after: Counters, c: Counter)
    requires BumpedOnly(before, after, c)
    ensures after.Total() == before.Total() + 1
    ensures NoneDecreased(before, after)
  {
    assert after.Total() == after.Of(GetCounter) + after.Of(PostCounter) + after.Of(PutCounter) + after.Of(DeleteCounter);
    assert before.Total() == before.Of(GetCounter) + before.Of(PostCounter) + before.Of(PutCounter) + before.Of(DeleteCounter);
  }

  /** The note table and the four counters, as values. */
  datatype State = State(notes: map<int, string>, counters: Counters)

  /** The state after one request and what the handler gave back. */
  datatype Step = Step(state: State, outcome: Outcome)

  /** `Note.query.get(id)`: the row with that primary key, if there is one. */
  function Find(notes: map<int, string>, id: int): (r: Option<Note>)
    ensures r.Some? <==> id in notes
    ensures r.Some? ==> r.value.id == id && r.value.content == notes[id]
  {
    if id in notes then Some(Note(id, notes[id])) else None
  }

  /** `after` is `before` with one new row `id` holding `content`. */
  predicate Inserted(before: map<int, string>, after: map<int, string>, id: int, content: string) {
    && id !in before
    && after.Keys == before.Keys + {id}
    && after[id] == content
    && forall k :: k in before ==> after[k] == before[k]
  }

  /** `after` is `before` with the content of row `id` replaced by `content`. */
  predicate Replaced(before: map<int, string>, after: map<int, string>, id: int, content: string) {
    && after.Keys == before.Keys
    && id in after
    && after[id] == content
    && forall k :: k in before && k != id ==> after[k] == before[k]
  }

  /** `after` is `before` without row `id`. */
  predicate Removed(before: map<int, string>, after: map<int, string>, id: int) {
    && after.Keys == before.Keys - {id}
    && forall k :: k in after ==> after[k] == before[k]
  }

  /** A bound above every key of the table, so some key is always unused. */
  ghost function UpperBound(keys: set<int>): (b: int)
    ensures forall k :: k in keys ==> k < b
    decreases |keys|
  {
    if keys == {} then 0
    else
      assert exists k :: k in keys by { SomeKey(keys); }
      var k :| k in keys;
      var rest := UpperBound(keys - {k});
      assert forall j :: j in keys ==> j == k || j in keys - {k};
      if k < rest then rest else k + 1
  }

  /** Proof aid for UpperBound: a non-empty set has an element the solver can name. */
  lemma SomeKey(keys: set<int>)
    requires keys != {}
    ensures exists k :: k in keys
  {
    if forall k :: k !in keys {
      assert false;
    }
  }

  /** POST /note, the same in both versions: count the request, read the
      content, insert a row under the id the database assigns (`newId`, not
      yet a key) and commit. */
  function Create(s: State, payload: Payload, newId: int): (r: Step)
    requires newId !in s.notes
    ensures BumpedOnly(s.counters, r.state.counters, PostCounter)
    ensures payload.Text? ==>
      && Inserted(s.notes, r.state.notes, newId, payload.text)
      && r.outcome == Reply(CREATED, IdBody(newId))
    ensures !payload.Text? ==>
      && r.state.notes == s.notes
      && r.outcome == Raised(ContentFailure(payload))
  {
    var counters := s.counters.Bump(PostCounter);
    match payload
    case Missing => Step(State(s.notes, counters), Raised(MissingContent))
    case Null => Step(State(s.notes, counters), Raised(NullContent))
    case Text(content) =>
      Step(State(s.notes[newId := content], counters), Reply(CREATED, IdBody(newId)))
  }

  /** The process-wide state of one running service: the rows of the note
      table and the four module-level counters. */
  class Service {
    var notes: map<int, string>
    var getCounter: nat
    var postCounter: nat
    var putCounter: nat
    var deleteCounter: nat

    /** A fresh process over a database file that already holds `stored`;
        counters start at zero. */
    constructor (stored: map<int, string>)
      ensures View() == State(stored, Counters(0, 0, 0, 0))
    {
      notes := stored;
      getCounter, postCounter, putCounter, deleteCounter := 0, 0, 0, 0;
    }

    function View(): State
      reads this
    {
      State(notes, Counters(getCounter, postCounter, putCounter, deleteCounter))
    }
  }
}
