/**
  The therapist's technique library and the evaluations of techniques
  (`src/lib/services/techniquesService.js`): listing, reading, saving and
  deleting the user's own techniques, and storing an evaluation, which also
  logs a `TECHNIQUE_EVALUATION_COMPLETED` journey event.

  `user` is the id of the signed-in user, `None` when there is none; `now` is
  the moment of the call.
 */
module TechniquesService {
  import opened Values
  import opened Backend
  import PatientService
  import JourneyService

  const NotAuthenticated := Error(None, "Usuário não autenticado.")

  /** The filter of the user's techniques. */
  function Owned(uid: string): Filter {
    [("user_id", JStr(uid))]
  }

  /** `getAllTechniques`: the user's techniques in ascending `title` order. */
  method GetAllTechniques(db: Store, user: Option<string>) returns (data: seq<Record>, error: Option<Error>)
    modifies db
    ensures db.tables == old(db.tables)
    ensures user.None? ==> data == [] && error == Some(NotAuthenticated) && db.calls == old(db.calls)
    ensures user.Some? ==>
      db.calls == old(db.calls) + [Request(GET, KnowledgeBase, Owned(user.value))]
      && error == db.FailureAt(|old(db.calls)|)
      && data == if error.Some? then [] else Selected(db.Rows(KnowledgeBase), Owned(user.value), Asc("title"))
  {
    if user.None? {
      return [], Some(NotAuthenticated);
    }
    data, error := db.Query(KnowledgeBase, Owned(user.value), Asc("title"));
  }

  /** `getTechniqueById`: the user's technique with that id, or an error when there is not exactly one. */
  method GetTechniqueById(db: Store, user: Option<string>, techniqueId: Json)
    returns (data: Option<Record>, error: Option<Error>)
    modifies db
    ensures db.tables == old(db.tables)
    ensures user.None? ==> data.None? && error == Some(NotAuthenticated) && db.calls == old(db.calls)
    ensures user.Some? ==>
      var f := PatientService.OwnRow(techniqueId, user.value);
      var found := Where(db.Rows(KnowledgeBase), f);
      var failed := db.FailureAt(|old(db.calls)|);
      db.calls == old(db.calls) + [Request(GET, KnowledgeBase, f)]
      && (data.Some? <==> failed.None? && |found| == 1)
      && (data.Some? ==> data.value == found[0] && error.None?)
      && (data.None? ==> error == if failed.Some? then failed else Some(NotSingle))
  {
    if user.None? {
      return None, Some(NotAuthenticated);
    }
    data, error := db.QuerySingle(KnowledgeBase, PatientService.OwnRow(techniqueId, user.value));
  }

  /** `{ ...techniqueData, user_id }`: the owner is always the signed-in user. */
  function TechniqueRecord(technique: Record, uid: string): Record {
    technique["user_id" := JStr(uid)]
  }

  /** The columns an update writes: the record without its `id`. */
  function UpdateColumns(technique: Record, uid: string): Record {
    TechniqueRecord(technique, uid) - {"id"}
  }

  /**
    The saved technique belongs to the user whatever `user_id` the input
    carried; an update never writes `id`, and both keep every other column
    of the input.
   */
  lemma TechniqueRecordFields(technique: Record, uid: string)
    ensures TechniqueRecord(technique, uid).Keys == technique.Keys + {"user_id"}
    ensures TechniqueRecord(technique, uid)["user_id"] == JStr(uid)
    ensures UpdateColumns(technique, uid).Keys == technique.Keys + {"user_id"} - {"id"}
    ensures UpdateColumns(technique, uid)["user_id"] == JStr(uid)
    ensures forall k :: k in technique && k != "user_id" ==> TechniqueRecord(technique, uid)[k] == technique[k]
    ensures forall k :: k in technique && k != "user_id" && k != "id" ==> UpdateColumns(technique, uid)[k] == technique[k]
  {
  }

  /**
    `saveTechnique`: with a truthy `id`, the update of the user's own row with
    that id, which must be the only one; otherwise an insert. A failure
    returns no data and changes nothing.
   */
  method SaveTechnique(db: Store, user: Option<string>, now: int, technique: Record)
    returns (data: Option<Record>, error: Option<Error>)
    modifies db
    ensures user.None? ==>
      data.None? && error == Some(NotAuthenticated) && db.calls == old(db.calls) && db.tables == old(db.tables)
    ensures error.Some? ==> data.None? && db.tables == old(db.tables)
    ensures user.Some? && !Has(technique, "id") ==>
      var row := Stamped(TechniqueRecord(technique, user.value), NewId(|old(db.calls)|), now);
      db.calls == old(db.calls) + [Request(POST, KnowledgeBase, [])]
      && error == db.FailureAt(|old(db.calls)|)
      && (error.None? ==> data == Some(row) && db.tables == old(db.tables)[KnowledgeBase := old(db.Rows(KnowledgeBase)) + [row]])
    ensures user.Some? && Has(technique, "id") ==>
      var f := PatientService.OwnRow(technique["id"], user.value);
      var found := Where(old(db.Rows(KnowledgeBase)), f);
      var failed := db.FailureAt(|old(db.calls)|);
      var patch := UpdateColumns(technique, user.value);
      db.calls == old(db.calls) + [Request(PATCH, KnowledgeBase, f)]
      && (error.None? <==> failed.None? && |found| == 1)
      && (error.None? ==>
            data == Some(found[0] + patch)
            && db.tables == old(db.tables)[KnowledgeBase := Patched(old(db.Rows(KnowledgeBase)), f, patch)])
      && (error.Some? ==> error == if failed.Some? then failed else Some(NotSingle))
  {
    if user.None? {
      return None, Some(NotAuthenticated);
    }
    var rec := TechniqueRecord(technique, user.value);
    if Has(rec, "id") {
      var row, err := db.UpdateSingle(KnowledgeBase, PatientService.OwnRow(rec["id"], user.value), rec - {"id"});
      data, error := row, err;
    } else {
      var row, err := db.Insert(KnowledgeBase, rec, now);
      data, error := row, err;
    }
    if error.Some? {
      return None, error;
    }
  }

  /** `deleteTechnique`: removes the user's own technique with that id. */
  method DeleteTechnique(db: Store, user: Option<string>, techniqueId: Json) returns (error: Option<Error>)
    modifies db
    ensures user.None? ==> error == Some(NotAuthenticated) && db.calls == old(db.calls) && db.tables == old(db.tables)
    ensures user.Some? ==>
      var f := PatientService.OwnRow(techniqueId, user.value);
      db.calls == old(db.calls) + [Request(DELETE, KnowledgeBase, f)]
      && error == db.FailureAt(|old(db.calls)|)
      && db.tables == if error.Some? then old(db.tables)
                      else old(db.tables)[KnowledgeBase := Without(old(db.Rows(KnowledgeBase)), f)]
  {
    if user.None? {
      return Some(NotAuthenticated);
    }
    error := db.Delete(KnowledgeBase, PatientService.OwnRow(techniqueId, user.value));
  }

  /** A delete leaves none of the user's rows with that id and keeps every other row. */
  lemma DeleteTechniqueRemoves(rows: seq<Record>, techniqueId: Json, uid: string)
    ensures var f := PatientService.OwnRow(techniqueId, uid);
      Where(Without(rows, f), f) == []
      && multiset(Without(rows, f)) + multiset(Where(rows, f)) == multiset(rows)
  {
    WithoutRemovesAll(rows, PatientService.OwnRow(techniqueId, uid));
  }

  /** `{ ...evaluationPayload, therapist_id }` */
  function EvaluationRecord(payload: Record, uid: string): Record {
    payload["therapist_id" := JStr(uid)]
  }

  /** The `event_data` of the logged event; properties the evaluation lacks are not sent. */
  function EvaluationEventData(evaluation: Record): Json {
    JObj(Defined(Defined(Defined(map["evaluationId" := Prop(evaluation, "id")],
                                 "techniqueId", Get(evaluation, "knowledge_base_id")),
                         "evaluationData", Get(evaluation, "evaluation_data")),
                 "evaluationResults", Get(evaluation, "evaluation_results")))
  }

  /** The journey event logged for a stored evaluation. */
  function EvaluationEvent(uid: string, evaluation: Record, now: int): Record {
    JourneyService.EventRecord(uid, now, Prop(evaluation, "patient_id"), "TECHNIQUE_EVALUATION_COMPLETED",
                               Some(EvaluationEventData(evaluation)), Some(JNull), Get(evaluation, "knowledge_base_id"),
                               Get(evaluation, "id"), Get(evaluation, "notes"))
  }

  /**
    What `saveTechniqueEvaluation` leaves, logs and returns: the tables, the
    request log, the data and the error. The event's failure only warns.
   */
  function EvaluationOutcome(
    tables: map<Table, seq<Record>>, calls: seq<Request>, failures: map<nat, Error>,
    user: Option<string>, now: int, payload: Record)
    : (map<Table, seq<Record>>, seq<Request>, Option<Record>, Option<Error>)
  {
    if user.None? then (tables, calls, None, Some(NotAuthenticated))
    else
      var sent := calls + [Request(POST, TechniqueEvaluations, [])];
      if |calls| in failures then (tables, sent, None, Some(failures[|calls|]))
      else
        var evaluation := Stamped(EvaluationRecord(payload, user.value), NewId(|calls|), now);
        var stored := tables[TechniqueEvaluations := RowsIn(tables, TechniqueEvaluations) + [evaluation]];
        (EventLogged(stored, sent, failures, EvaluationEvent(user.value, evaluation, now), now),
         sent + [Request(POST, JourneyEvents, [])], Some(evaluation), None)
  }

  /** The tables after the journey insert that the request at position `|calls|` makes. */
  function EventLogged(tables: map<Table, seq<Record>>, calls: seq<Request>, failures: map<nat, Error>, event: Record, now: int)
    : map<Table, seq<Record>>
  {
    if |calls| in failures then tables
    else tables[JourneyEvents := RowsIn(tables, JourneyEvents) + [Stamped(event, NewId(|calls|), now)]]
  }

  /** `saveTechniqueEvaluation` */
  method SaveTechniqueEvaluation(db: Store, user: Option<string>, now: int, payload: Record)
    returns (data: Option<Record>, error: Option<Error>)
    modifies db
    ensures (db.tables, db.calls, data, error) == EvaluationOutcome(old(db.tables), old(db.calls), db.failures, user, now, payload)
  {
    if user.None? {
      return None, Some(NotAuthenticated);
    }
    var inserted, insertErr := db.Insert(TechniqueEvaluations, EvaluationRecord(payload, user.value), now);
    if insertErr.Some? {
      return None, insertErr;
    }
    var evaluation := inserted.value;
    var logged, logErr := JourneyService.LogJourneyEvent(
      db, user, now, Prop(evaluation, "patient_id"), "TECHNIQUE_EVALUATION_COMPLETED",
      Some(EvaluationEventData(evaluation)), Some(JNull), Get(evaluation, "knowledge_base_id"),
      Get(evaluation, "id"), Get(evaluation, "notes"));
    return Some(evaluation), None;
  }

  /**
    An error is reported exactly when there is no user or the insert fails,
    and then no table changes and no event is logged; otherwise the stored
    evaluation, owned by the user, is the reply.
   */
  lemma EvaluationErrors(
    tables: map<Table, seq<Record>>, calls: seq<Request>, failures: map<nat, Error>,
    user: Option<string>, now: int, payload: Record)
    ensures var r := EvaluationOutcome(tables, calls, failures, user, now, payload);
      (r.3.Some? <==> user.None? || |calls| in failures)
      && (r.3.Some? ==> r.0 == tables && r.2.None? && Request(POST, JourneyEvents, []) !in r.1[|calls|..])
      && (r.3.None? ==> r.2 == Some(Stamped(EvaluationRecord(payload, user.value), NewId(|calls|), now)))
  {
  }

  /** A stored evaluation is the last row of its table, followed by exactly one journey insert. */
  lemma EvaluationStored(
    tables: map<Table, seq<Record>>, calls: seq<Request>, failures: map<nat, Error>,
    uid: string, now: int, payload: Record)
    requires |calls| !in failures
    ensures var r := EvaluationOutcome(tables, calls, failures, Some(uid), now, payload);
      var evaluation := Stamped(EvaluationRecord(payload, uid), NewId(|calls|), now);
      r.1 == calls + [Request(POST, TechniqueEvaluations, []), Request(POST, JourneyEvents, [])]
      && RowsIn(r.0, TechniqueEvaluations) == RowsIn(tables, TechniqueEvaluations) + [evaluation]
  {
  }

  /**
    When the journey insert succeeds the journey table gains the
    evaluation's event; when it fails the journey table is unchanged.
   */
  lemma EvaluationEventAppended(
    tables: map<Table, seq<Record>>, calls: seq<Request>, failures: map<nat, Error>,
    uid: string, now: int, payload: Record)
    requires |calls| !in failures
    ensures var r := EvaluationOutcome(tables, calls, failures, Some(uid), now, payload);
      var evaluation := Stamped(EvaluationRecord(payload, uid), NewId(|calls|), now);
      var events := RowsIn(r.0, JourneyEvents);
      (|calls| + 1 in failures ==> events == RowsIn(tables, JourneyEvents))
      && (|calls| + 1 !in failures ==>
            events == RowsIn(tables, JourneyEvents) + [Stamped(EvaluationEvent(uid, evaluation, now), NewId(|calls| + 1), now)])
  {
    var evaluation := Stamped(EvaluationRecord(payload, uid), NewId(|calls|), now);
    var stored := tables[TechniqueEvaluations := RowsIn(tables, TechniqueEvaluations) + [evaluation]];
    var sent := calls + [Request(POST, TechniqueEvaluations, [])];
    assert EvaluationOutcome(tables, calls, failures, Some(uid), now, payload).0
      == EventLogged(stored, sent, failures, EvaluationEvent(uid, evaluation, now), now);
    assert RowsIn(stored, JourneyEvents) == RowsIn(tables, JourneyEvents);
  }

  /** The journey insert's failure changes neither the reply nor the requests. */
  lemma EvaluationLogOnlyWarns(
    tables: map<Table, seq<Record>>, calls: seq<Request>, failures: map<nat, Error>,
    user: Option<string>, now: int, payload: Record, e: Error)
    ensures var r := EvaluationOutcome(tables, calls, failures, user, now, payload);
      var r' := EvaluationOutcome(tables, calls, failures[|calls| + 1 := e], user, now, payload);
      r.1 == r'.1 && r.2 == r'.2 && r.3 == r'.3
  {
  }

  /** The stored evaluation belongs to the signed-in user and keeps the payload's other columns. */
  lemma EvaluationRecordFields(payload: Record, uid: string)
    ensures EvaluationRecord(payload, uid)["therapist_id"] == JStr(uid)
    ensures forall k :: k in payload && k != "therapist_id" ==> EvaluationRecord(payload, uid)[k] == payload[k]
  {
  }

  /**
    The logged event is a `TECHNIQUE_EVALUATION_COMPLETED` event of the
    evaluation's patient, linking the technique and the evaluation and
    carrying its notes; its data names the evaluation as `evaluationId`.
   */
  lemma EvaluationEventFields(uid: string, evaluation: Record, now: int)
    ensures var e := EvaluationEvent(uid, evaluation, now);
      e["event_type"] == JStr("TECHNIQUE_EVALUATION_COMPLETED")
      && e["patient_id"] == Prop(evaluation, "patient_id")
      && e["related_knowledge_id"] == Prop(evaluation, "knowledge_base_id")
      && e["related_technique_evaluation_id"] == Prop(evaluation, "id")
      && e["related_analysis_id"] == JNull
      && e["notes"] == Prop(evaluation, "notes")
      && e["event_data"].JObj? && e["event_data"].fields["evaluationId"] == Prop(evaluation, "id")
      && "technique_evaluation_id" !in e["event_data"].fields
  {
    JourneyService.EventRecordFields(uid, now, Prop(evaluation, "patient_id"), "TECHNIQUE_EVALUATION_COMPLETED",
                                     Some(EvaluationEventData(evaluation)), Some(JNull), Get(evaluation, "knowledge_base_id"),
                                     Get(evaluation, "id"), Get(evaluation, "notes"));
  }

  /**
    `getEvaluationsForTechnique`: the user's evaluations of one technique for
    one patient, newest `evaluation_date` first, each with the technique's
    title embedded.
   */
  method GetEvaluationsForTechnique(db: Store, user: Option<string>, patientId: Json, techniqueId: Json)
    returns (data: seq<Record>, error: Option<Error>)
    modifies db
    ensures db.tables == old(db.tables)
    ensures user.None? ==> data == [] && error == Some(NotAuthenticated) && db.calls == old(db.calls)
    ensures user.Some? ==>
      var f := [("patient_id", patientId), ("knowledge_base_id", techniqueId), ("therapist_id", JStr(user.value))];
      db.calls == old(db.calls) + [Request(GET, TechniqueEvaluations, f)]
      && error == db.FailureAt(|old(db.calls)|)
      && data == if error.Some? then []
                 else Embedded(Selected(db.Rows(TechniqueEvaluations), f, Desc("evaluation_date")),
                               "knowledge_base_id", db.Rows(KnowledgeBase), "therapy_knowledge_base", "title")
  {
    if user.None? {
      return [], Some(NotAuthenticated);
    }
    var f := [("patient_id", patientId), ("knowledge_base_id", techniqueId), ("therapist_id", JStr(user.value))];
    var rows, err := db.Query(TechniqueEvaluations, f, Desc("evaluation_date"));
    if err.Some? {
      return [], err;
    }
    return Embedded(rows, "knowledge_base_id", db.Rows(KnowledgeBase), "therapy_knowledge_base", "title"), None;
  }
}
