/**
  The patient journey log (`src/lib/services/journeyService.js`): appending
  an event for the signed-in user and reading a patient's events and
  technique evaluations back, newest first.

  `user` is the id of the signed-in user, `None` when there is none; `now` is
  the moment of the call.
 */
module JourneyService {
  import opened Values
  import opened Backend

  const NotAuthenticated := Error(None, "Usuário não autenticado.")

  /** The code Postgres gives a query on a table that does not exist. */
  const UndefinedTable := "42P01"

  /**
    The row `logJourneyEvent` inserts. An argument the caller leaves out is
    `None` and takes its default: `{}` for the event data, null for the
    related ids and the notes.
   */
  function EventRecord(
    uid: string, now: int, patientId: Json, eventType: string, eventData: Option<Json>,
    relatedAnalysisId: Option<Json>, relatedKnowledgeId: Option<Json>,
    relatedTechniqueEvaluationId: Option<Json>, notes: Option<Json>): Record
  {
    map[
      "patient_id" := patientId,
      "user_id" := JStr(uid),
      "event_type" := JStr(eventType),
      "event_data" := OrDefault(eventData, JObj(map[])),
      "related_analysis_id" := OrDefault(relatedAnalysisId, JNull),
      "related_knowledge_id" := OrDefault(relatedKnowledgeId, JNull),
      "related_technique_evaluation_id" := OrDefault(relatedTechniqueEvaluationId, JNull),
      "notes" := OrDefault(notes, JNull),
      "timestamp" := JNum(now)
    ]
  }

  /**
    The event row has exactly the journey columns: the caller's values, the
    user and the instant, and the defaults for what the caller left out.
   */
  lemma EventRecordFields(
    uid: string, now: int, patientId: Json, eventType: string, eventData: Option<Json>,
    relatedAnalysisId: Option<Json>, relatedKnowledgeId: Option<Json>,
    relatedTechniqueEvaluationId: Option<Json>, notes: Option<Json>)
    ensures var r := EventRecord(uid, now, patientId, eventType, eventData, relatedAnalysisId, relatedKnowledgeId,
                                 relatedTechniqueEvaluationId, notes);
      r.Keys == {"patient_id", "user_id", "event_type", "event_data", "related_analysis_id",
                 "related_knowledge_id", "related_technique_evaluation_id", "notes", "timestamp"}
      && r["user_id"] == JStr(uid) && r["timestamp"] == JNum(now) && r["event_type"] == JStr(eventType)
      && r["patient_id"] == patientId
      && r["event_data"] == (if eventData.Some? then eventData.value else JObj(map[]))
      && r["related_analysis_id"] == (if relatedAnalysisId.Some? then relatedAnalysisId.value else JNull)
      && r["related_knowledge_id"] == (if relatedKnowledgeId.Some? then relatedKnowledgeId.value else JNull)
      && r["related_technique_evaluation_id"]
         == (if relatedTechniqueEvaluationId.Some? then relatedTechniqueEvaluationId.value else JNull)
      && r["notes"] == (if notes.Some? then notes.value else JNull)
  {
  }

  /** A parameter's default value applies when the argument is `undefined`. */
  function OrDefault(v: Option<Json>, d: Json): Json {
    if v.Some? then v.value else d
  }

  /** `logJourneyEvent`: one insert into the journey table, or nothing at all without a user. */
  method LogJourneyEvent(
    db: Store, user: Option<string>, now: int, patientId: Json, eventType: string, eventData: Option<Json>,
    relatedAnalysisId: Option<Json>, relatedKnowledgeId: Option<Json>,
    relatedTechniqueEvaluationId: Option<Json>, notes: Option<Json>)
    returns (data: Option<Record>, error: Option<Error>)
    modifies db
    ensures user.None? ==>
      data.None? && error == Some(NotAuthenticated) && db.calls == old(db.calls) && db.tables == old(db.tables)
    ensures user.Some? ==> db.calls == old(db.calls) + [Request(POST, JourneyEvents, [])]
    ensures user.Some? ==> error == db.FailureAt(|old(db.calls)|)
    ensures user.Some? && error.Some? ==> data.None? && db.tables == old(db.tables)
    ensures user.Some? && error.None? ==>
      var row := Stamped(EventRecord(user.value, now, patientId, eventType, eventData, relatedAnalysisId,
                                     relatedKnowledgeId, relatedTechniqueEvaluationId, notes),
                         NewId(|old(db.calls)|), now);
      data == Some(row) && db.tables == old(db.tables)[JourneyEvents := old(db.Rows(JourneyEvents)) + [row]]
  {
    if user.None? {
      return None, Some(NotAuthenticated);
    }
    var rec := EventRecord(user.value, now, patientId, eventType, eventData, relatedAnalysisId,
                           relatedKnowledgeId, relatedTechniqueEvaluationId, notes);
    data, error := db.Insert(JourneyEvents, rec, now);
  }

  /** The filter of a patient's rows that belong to the user in column `owner`. */
  function OwnedBy(patientId: Json, owner: string, uid: string): Filter {
    [("patient_id", patientId), (owner, JStr(uid))]
  }

  /** `getAllJourneyEventsForPatient`: the user's events of the patient, newest `timestamp` first. */
  method GetAllJourneyEventsForPatient(db: Store, user: Option<string>, patientId: Json)
    returns (data: seq<Record>, error: Option<Error>)
    modifies db
    ensures db.tables == old(db.tables)
    ensures user.None? ==> data == [] && error == Some(NotAuthenticated) && db.calls == old(db.calls)
    ensures user.Some? ==>
      var f := OwnedBy(patientId, "user_id", user.value);
      db.calls == old(db.calls) + [Request(GET, JourneyEvents, f)]
      && error == db.FailureAt(|old(db.calls)|)
      && data == if error.Some? then [] else Selected(db.Rows(JourneyEvents), f, Desc("timestamp"))
  {
    if user.None? {
      return [], Some(NotAuthenticated);
    }
    data, error := db.Query(JourneyEvents, OwnedBy(patientId, "user_id", user.value), Desc("timestamp"));
  }

  /**
    `getAllTechniqueEvaluationsForPatient`: the evaluations of the patient made
    by the user, each with its technique's title, newest `evaluation_date`
    first. A missing table reads as no evaluations and no error.
   */
  method GetAllTechniqueEvaluationsForPatient(db: Store, user: Option<string>, patientId: Json)
    returns (data: seq<Record>, error: Option<Error>)
    modifies db
    ensures db.tables == old(db.tables)
    ensures user.None? ==> data == [] && error == Some(NotAuthenticated) && db.calls == old(db.calls)
    ensures user.Some? ==>
      var f := OwnedBy(patientId, "therapist_id", user.value);
      var failed := db.FailureAt(|old(db.calls)|);
      db.calls == old(db.calls) + [Request(GET, TechniqueEvaluations, f)]
      && (failed.None? ==> error.None? && data == Embedded(Selected(db.Rows(TechniqueEvaluations), f, Desc("evaluation_date")),
                                                           "knowledge_base_id", db.Rows(KnowledgeBase),
                                                           "therapy_knowledge_base", "title"))
      && (failed.Some? ==> data == [] && error == if failed.value.code == Some(UndefinedTable) then None else failed)
  {
    if user.None? {
      return [], Some(NotAuthenticated);
    }
    var f := OwnedBy(patientId, "therapist_id", user.value);
    var rows, err := db.Query(TechniqueEvaluations, f, Desc("evaluation_date"));
    if err.Some? {
      if err.value.code == Some(UndefinedTable) {
        return [], None;
      }
      return [], err;
    }
    data := Embedded(rows, "knowledge_base_id", db.Rows(KnowledgeBase), "therapy_knowledge_base", "title");
    error := None;
  }
}
