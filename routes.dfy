/** The blueprint handlers of the `app` package: POST /note and
    GET/PUT/DELETE /note/<id>, where every branch of the latter answers 404
    for an id that has no row. */
module Routes {
  import opened Notes

  /** handle_note: count the request on the verb's counter, then answer 404
      for a missing row, or read, overwrite or delete the row. HEAD matches
      no branch, so nothing is counted or changed and the view returns None. */
  function Handle(s: State, verb: Verb, id: int, payload: Payload): (r: Step)
    ensures CountedOn(s.counters, r.state.counters, CounterOf(verb))
    ensures verb == Head ==> r.state == s && r.outcome == Raised(NoResponse)
    ensures verb != Head && id !in s.notes ==>
      && r.state.notes == s.notes
      && r.outcome == Reply(NOT_FOUND, IdBody(id))
    ensures id in s.notes && verb == Get ==>
      && r.state.notes == s.notes
      && r.outcome == Reply(OK, ContentBody(s.notes[id]))
    ensures id in s.notes && verb == Put && payload.Text? ==>
      && Replaced(s.notes, r.state.notes, id, payload.text)
      && r.outcome == Reply(OK, IdBody(id))
    ensures id in s.notes && verb == Put && !payload.Text? ==>
      && r.state.notes == s.notes
      && r.outcome == Raised(ContentFailure(payload))
    ensures id in s.notes && verb == Delete ==>
      && Removed(s.notes, r.state.notes, id)
      && r.outcome == Reply(NO_CONTENT, EmptyBody)
  {
    var note := Find(s.notes, id);
    if verb == Head then Step(s, Raised(NoResponse))
    else
      var counters := s.counters.Bump(CounterOf(verb).value);
      if note.None? then
        Step(State(s.notes, counters), Reply(NOT_FOUND, IdBody(id)))
      else
        match verb
        case Get => Step(State(s.notes, counters), Reply(OK, ContentBody(note.value.content)))
        case Put =>
          (match payload
           case Text(content) =>
             Step(State(s.notes[id := content], counters), Reply(OK, IdBody(note.value.id)))
           case _ => Step(State(s.notes, counters), Raised(ContentFailure(payload))))
        case Delete => Step(State(s.notes - {id}, counters), Reply(NO_CONTENT, EmptyBody))
  }

  /** create_note: `post_counter.add(1)`, then the insert and commit; the
      database assigns a primary key that no row has. */
  method CreateNote(svc: Service, payload: Payload) returns (out: Outcome)
    modifies svc
    ensures exists newId | newId !in old(svc.notes) ::
      Step(svc.View(), out) == Create(old(svc.View()), payload, newId)
  {
    svc.postCounter := svc.postCounter + 1;
    assert UpperBound(svc.notes.Keys) !in svc.notes;
    var newId :| newId !in svc.notes;
    match payload {
      case Missing =>
        out := Raised(MissingContent);
      case Null =>
        // the row is added to the session, but the commit is refused
        out := Raised(NullContent);
      case Text(content) =>
        svc.notes := svc.notes[newId := content];
        out := Reply(CREATED, IdBody(newId));
    }
    assert Step(svc.View(), out) == Create(old(svc.View()), payload, newId);
  }

  /** handle_note, with its three branches and their 404 guards; HEAD falls through all three. */
  method HandleNote(svc: Service, verb: Verb, id: int, payload: Payload) returns (out: Outcome)
    modifies svc
    ensures Step(svc.View(), out) == Handle(old(svc.View()), verb, id, payload)
  {
    var note := Find(svc.notes, id);
    match verb {
      case Get =>
        svc.getCounter := svc.getCounter + 1;
        if note.None? {
          return Reply(NOT_FOUND, IdBody(id));
        }
        out := Reply(OK, ContentBody(note.value.content));
      case Put =>
        svc.putCounter := svc.putCounter + 1;
        if note.None? {
          return Reply(NOT_FOUND, IdBody(id));
        }
        match payload {
          case Missing =>
            out := Raised(MissingContent);
          case Null =>
            // the new content is set on the row, but the commit is refused
            out := Raised(NullContent);
          case Text(content) =>
            svc.notes := svc.notes[note.value.id := content];
            out := Reply(OK, IdBody(note.value.id));
        }
      case Delete =>
        svc.deleteCounter := svc.deleteCounter + 1;
        if note.None? {
          return Reply(NOT_FOUND, IdBody(id));
        }
        svc.notes := svc.notes - {note.value.id};
        out := Reply(NO_CONTENT, EmptyBody);
      case Head =>
        out := Raised(NoResponse);
    }
  }

  /** POST followed by GET on the id it returned gives back the posted content. */
  lemma PostThenGet(s: State, content: string, newId: int, payload: Payload)
    requires newId !in s.notes
    ensures Create(s, Text(content), newId).outcome == Reply(CREATED, IdBody(newId))
    ensures Handle(Create(s, Text(content), newId).state, Get, newId, payload).outcome
         == Reply(OK, ContentBody(content))
  {
    var posted := Create(s, Text(content), newId).state;
    assert newId in posted.notes && posted.notes[newId] == content;
  }

  /** PUT on a stored row changes what a later GET returns; other rows read back as before. */
  lemma PutThenGet(s: State, id: int, content: string, other: int, payload: Payload)
    requires id in s.notes
    ensures Handle(Handle(s, Put, id, Text(content)).state, Get, id, payload).outcome
         == Reply(OK, ContentBody(content))
    ensures other != id ==>
      Handle(Handle(s, Put, id, Text(content)).state, Get, other, payload).outcome
      == Handle(s, Get, other, payload).outcome
  {
    var put := Handle(s, Put, id, Text(content)).state;
    assert Replaced(s.notes, put.notes, id, content);
    assert other in put.notes <==> other in s.notes;
  }

  /** After DELETE of a stored row, GET on that id answers 404. */
  lemma DeleteThenGet(s: State, id: int, payload: Payload)
    requires id in s.notes
    ensures Handle(Handle(s, Delete, id, payload).state, Get, id, payload).outcome
         == Reply(NOT_FOUND, IdBody(id))
  {
    var deleted := Handle(s, Delete, id, payload).state;
    assert id !in deleted.notes;
  }

  /** The round of requests the service is exercised with: create a note,
      read it, update it, read it again, delete it, read it once more. */
  lemma ScriptedSession(s: State, newId: int)
    requires newId !in s.notes
    ensures
      var p := Create(s, Text("Sample Text 1"), newId);
      var g1 := Handle(p.state, Get, newId, Missing);
      var u := Handle(g1.state, Put, newId, Text("Updated"));
      var g2 := Handle(u.state, Get, newId, Missing);
      var d := Handle(g2.state, Delete, newId, Missing);
      var g3 := Handle(d.state, Get, newId, Missing);
      && p.outcome == Reply(CREATED, IdBody(newId))
      && g1.outcome == Reply(OK, ContentBody("Sample Text 1"))
      && u.outcome == Reply(OK, IdBody(newId))
      && g2.outcome == Reply(OK, ContentBody("Updated"))
      && d.outcome == Reply(NO_CONTENT, EmptyBody)
      && g3.outcome == Reply(NOT_FOUND, IdBody(newId))
      && g3.state.notes == s.notes
  {
    var p := Create(s, Text("Sample Text 1"), newId);
    var g1 := Handle(p.state, Get, newId, Missing);
    var u := Handle(g1.state, Put, newId, Text("Updated"));
    var g2 := Handle(u.state, Get, newId, Missing);
    var d := Handle(g2.state, Delete, newId, Missing);
    assert d.state.notes == s.notes;
  }
}
