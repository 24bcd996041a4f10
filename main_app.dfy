/** The standalone application module: the same POST /note handler, and a
    GET/PUT/DELETE /note/<id> handler with no check for a missing row, so
    that a request for an unknown id is counted and then raises. */
module MainApp {
  import opened Notes

  /** What the unguarded handler raises for an id that has no row. Python
      evaluates the right-hand side of `note.content = ...` before it stores
      the attribute, so a PUT without content fails on the body first; HEAD
      never touches the row and falls through every branch. */
  function MissingRowFailure(verb: Verb, payload: Payload): (f: Failure)
    ensures f == MissingContent <==> verb == Put && payload.Missing?
    ensures f == NoResponse <==> verb == Head
    ensures f != NullContent
  {
    if verb == Head then NoResponse
    else if verb == Put && payload.Missing? then MissingContent
    else NoSuchNote
  }

  /** handle_note without the guard: the verb's counter moves first, then the
      row that `Note.query.get` returned (or `None`) is used. HEAD matches
      no branch, so nothing is counted or changed and the view returns None. */
  function Handle(s: State, verb: Verb, id: int, payload: Payload): (r: Step)
    ensures CountedOn(s.counters, r.state.counters, CounterOf(verb))
    ensures verb == Head ==> r.state == s && r.outcome == Raised(NoResponse)
    ensures id !in s.notes ==>
      && r.state.notes == s.notes
      && r.outcome == Raised(MissingRowFailure(verb, payload))
    ensures id in s.notes && verb == Get ==>
      && r.state.notes == s.notes
      && r.outcome == Reply(OK, ContentBody(s.notes[id]))
    ensures id in s.notes && verb == Put && payload.Text? ==>
      && Replaced(s.notes, r.state.notes, id, payload.text)
      && r.outcome == Reply(OK, IdBody(id))
    ensures id in s.notes && verb == Put && !payload.Text? ==>
      && r.state.notes == s.notes
      && r.outcome == Raised(ContentFailure(payload))
    ensures id in s.notes && verb == Delete ==>
      && Removed(s.notes, r.state.notes, id)
      && r.outcome == Reply(NO_CONTENT, EmptyBody)
  {
    var note := Find(s.notes, id);
    if verb == Head then Step(s, Raised(NoResponse))
    else
      var counters := s.counters.Bump(CounterOf(verb).value);
      match verb
      case Get =>
        if note.None? then Step(State(s.notes, counters), Raised(NoSuchNote))
        else Step(State(s.notes, counters), Reply(OK, ContentBody(note.value.content)))
      case Put =>
        (match payload
         case Missing => Step(State(s.notes, counters), Raised(MissingContent))
         case Null =>
           if note.None? then Step(State(s.notes, counters), Raised(NoSuchNote))
           else Step(State(s.notes, counters), Raised(NullContent))
         case Text(content) =>
           if note.None? then Step(State(s.notes, counters), Raised(NoSuchNote))
           else Step(State(s.notes[id := content], counters), Reply(OK, IdBody(note.value.id))))
      case Delete =>
        if note.None? then Step(State(s.notes, counters), Raised(NoSuchNote))
        else Step(State(s.notes - {id}, counters), Reply(NO_CONTENT, EmptyBody))
  }

  /** create_note: `post_counter.add(1)`, then the insert and commit; the
      database assigns a primary key that no row has. */
  method CreateNote(svc: Service, payload: Payload) returns (out: Outcome)
    modifies svc
    ensures exists newId | newId !in old(svc.notes) ::
      Step(svc.View(), out) == Create(old(svc.View()), payload, newId)
  {
    svc.postCounter := svc.postCounter + 1;
    assert UpperBound(svc.notes.Keys) !in svc.notes;
    var newId :| newId !in svc.notes;
    match payload {
      case Missing =>
        out := Raised(MissingContent);
      case Null =>
        // the row is added to the session, but the commit is refused
        out := Raised(NullContent);
      case Text(content) =>
        svc.notes := svc.notes[newId := content];
        out := Reply(CREATED, IdBody(newId));
    }
    assert Step(svc.View(), out) == Create(old(svc.View()), payload, newId);
  }

  /** handle_note as this module writes it, without a check on the row. */
  method HandleNote(svc: Service, verb: Verb, id: int, payload: Payload) returns (out: Outcome)
    modifies svc
    ensures Step(svc.View(), out) == Handle(old(svc.View()), verb, id, payload)
  {
    var note := Find(svc.notes, id);
    match verb {
      case Get =>
        svc.getCounter := svc.getCounter + 1;
        if note.None? {
          // `note.content` on None
          return Raised(NoSuchNote);
        }
        out := Reply(OK, ContentBody(note.value.content));
      case Put =>
        svc.putCounter := svc.putCounter + 1;
        // the new content is read before it is stored on the row
        if payload.Missing? {
          return Raised(MissingContent);
        }
        if note.None? {
          // setting `content` on None
          return Raised(NoSuchNote);
        }
        match payload {
          case Null =>
            // the new content is set on the row, but the commit is refused
            out := Raised(NullContent);
          case Text(content) =>
            svc.notes := svc.notes[note.value.id := content];
            out := Reply(OK, IdBody(note.value.id));
        }
      case Delete =>
        svc.deleteCounter := svc.deleteCounter + 1;
        if note.None? {
          // the session refuses to delete None
          return Raised(NoSuchNote);
        }
        svc.notes := svc.notes - {note.value.id};
        out := Reply(NO_CONTENT, EmptyBody);
      case Head =>
        out := Raised(NoResponse);
    }
  }

  /** POST followed by GET on the id it returned gives back the posted content. */
  lemma PostThenGet(s: State, content: string, newId: int, payload: Payload)
    requires newId !in s.notes
    ensures Create(s, Text(content), newId).outcome == Reply(CREATED, IdBody(newId))
    ensures Handle(Create(s, Text(content), newId).state, Get, newId, payload).outcome
         == Reply(OK, ContentBody(content))
  {
    var posted := Create(s, Text(content), newId).state;
    assert newId in posted.notes && posted.notes[newId] == content;
  }

  /** After DELETE of a stored row, GET and a second DELETE on that id raise,
      and neither changes the table. */
  lemma DeleteThenGet(s: State, id: int, payload: Payload)
    requires id in s.notes
    ensures
      var deleted := Handle(s, Delete, id, payload).state;
      && Handle(deleted, Get, id, payload) == Step(State(deleted.notes, deleted.counters.Bump(GetCounter)), Raised(NoSuchNote))
      && Handle(deleted, Delete, id, payload) == Step(State(deleted.notes, deleted.counters.Bump(DeleteCounter)), Raised(NoSuchNote))
  {
    var deleted := Handle(s, Delete, id, payload).state;
    assert id !in deleted.notes;
  }
}
