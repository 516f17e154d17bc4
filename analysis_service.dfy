/**
  Quantum analyses (`src/lib/services/analysisService.js`): saving one, which
  stores the analysis, marks the patient as having an analysis and logs an
  `ANALYSIS_GENERATED` journey event, in that order; and listing a patient's
  analyses, newest first.

  `user` is the id of the signed-in user, `None` when there is none; `now` is
  the moment of the call.
 */
module AnalysisService {
  import opened Values
  import opened Backend
  import PatientService
  import JourneyService

  const NotAuthenticated := Error(None, "Usuário não autenticado.")
  const InvalidCategories := Error(None, "Dados de categorias da análise estão inválidos ou ausentes.")

  /**
    The save's guard: `results` is present and truthy and its `categories` is
    an object other than null. An empty object passes.
   */
  predicate ValidResults(analysis: Record) {
    "results" in analysis && analysis["results"].JObj?
    && "categories" in analysis["results"].fields && IsObject(analysis["results"].fields["categories"])
  }

  /** The rejected `results` values are exactly the falsy ones, the non-objects and those whose `categories` is missing, null or a scalar. */
  lemma ValidResultsCases(analysis: Record)
    ensures !Has(analysis, "results") ==> !ValidResults(analysis)
    ensures ValidResults(analysis) <==>
      Has(analysis, "results") && analysis["results"].JObj?
      && var c := Prop(analysis["results"].fields, "categories"); c != JNull && (c.JObj? || c.JArr?)
  {
  }

  /** The row the save inserts; an `answers` or `recommendations` left undefined is not sent. */
  function AnalysisRecord(pid: Json, uid: string, analysis: Record): Record
    requires "results" in analysis
  {
    var base := map["patient_id" := pid, "user_id" := JStr(uid), "results" := analysis["results"]];
    Defined(Defined(base, "answers", Get(analysis, "answers")), "recommendations", Get(analysis, "recommendations"))
  }

  /** The inserted row names the patient and the owner and carries the analysis's own fields. */
  lemma AnalysisRecordFields(pid: Json, uid: string, analysis: Record)
    requires "results" in analysis
    ensures var r := AnalysisRecord(pid, uid, analysis);
      "patient_id" in r && "user_id" in r && "results" in r
      && r["patient_id"] == pid && r["user_id"] == JStr(uid) && r["results"] == analysis["results"]
      && ("answers" in r <==> "answers" in analysis)
      && ("recommendations" in r <==> "recommendations" in analysis)
      && r.Keys <= {"patient_id", "user_id", "answers", "results", "recommendations"}
      && forall k :: k in r && (k == "answers" || k == "recommendations") ==> r[k] == analysis[k]
  {
  }

  /** `newAnalysis.results?.categories` */
  function CategoriesOf(row: Record): Option<Json> {
    if "results" in row && row["results"].JObj? then Get(row["results"].fields, "categories") else None
  }

  /** The `event_data` of the logged event: the analysis id and its categories. */
  function AnalysisEventData(row: Record): Json {
    JObj(Defined(map["analysisId" := Prop(row, "id")], "categories", CategoriesOf(row)))
  }

  /** The journey event logged for a stored analysis, linked to it by `related_analysis_id`. */
  function AnalysisEvent(pid: Json, uid: string, row: Record, now: int): Record {
    JourneyService.EventRecord(uid, now, pid, "ANALYSIS_GENERATED", Some(AnalysisEventData(row)),
                               Some(Prop(row, "id")), None, None, None)
  }

  /**
    What `saveQuantumAnalysis` leaves, logs and returns: the tables, the
    request log, the data and the error. The flag update and the event log
    only warn when they fail.
   */
  function AnalysisOutcome(
    tables: map<Table, seq<Record>>, calls: seq<Request>, failures: map<nat, Error>,
    user: Option<string>, now: int, pid: Json, analysis: Record)
    : (map<Table, seq<Record>>, seq<Request>, Option<Record>, Option<Error>)
  {
    if user.None? then (tables, calls, None, Some(NotAuthenticated))
    else if !ValidResults(analysis) then (tables, calls, None, Some(InvalidCategories))
    else
      var sent := calls + [Request(POST, QuantumAnalyses, [])];
      if |calls| in failures then (tables, sent, None, Some(failures[|calls|]))
      else
        var row := Stamped(AnalysisRecord(pid, user.value, analysis), NewId(|calls|), now);
        AnalysisFollowUp(tables[QuantumAnalyses := RowsIn(tables, QuantumAnalyses) + [row]], sent, failures,
                         user.value, now, pid, row)
  }

  /** After the insert: the flag update, then the journey event; the reply is the stored analysis. */
  function AnalysisFollowUp(
    tables: map<Table, seq<Record>>, calls: seq<Request>, failures: map<nat, Error>,
    uid: string, now: int, pid: Json, row: Record)
    : (map<Table, seq<Record>>, seq<Request>, Option<Record>, Option<Error>)
  {
    var f := PatientService.OwnRow(pid, uid);
    var flagged := if |calls| in failures || |Where(RowsIn(tables, Patients), f)| != 1 then tables
                   else tables[Patients := Patched(RowsIn(tables, Patients), f, PatientService.FlagPatch(true, now))];
    var sent := calls + [Request(PATCH, Patients, f)];
    var event := Stamped(AnalysisEvent(pid, uid, row, now), NewId(|sent|), now);
    var logged := if |sent| in failures then flagged
                  else flagged[JourneyEvents := RowsIn(flagged, JourneyEvents) + [event]];
    (logged, sent + [Request(POST, JourneyEvents, [])], Some(row), None)
  }

  /** `saveQuantumAnalysis` */
  method SaveQuantumAnalysis(db: Store, user: Option<string>, now: int, pid: Json, analysis: Record)
    returns (data: Option<Record>, error: Option<Error>)
    modifies db
    ensures (db.tables, db.calls, data, error) == AnalysisOutcome(old(db.tables), old(db.calls), db.failures, user, now, pid, analysis)
  {
    if user.None? {
      return None, Some(NotAuthenticated);
    }
    if !ValidResults(analysis) {
      return None, Some(InvalidCategories);
    }
    var inserted, insertErr := db.Insert(QuantumAnalyses, AnalysisRecord(pid, user.value, analysis), now);
    if insertErr.Some? {
      return None, insertErr;
    }
    var row := inserted.value;
    ghost var outcome := AnalysisFollowUp(db.tables, db.calls, db.failures, user.value, now, pid, row);
    var flag := PatientService.UpdatePatientHasAnalysisFlag(db, user, now, pid, true);
    if inserted.Some? {
      var logged, logErr := JourneyService.LogJourneyEvent(
        db, user, now, pid, "ANALYSIS_GENERATED", Some(AnalysisEventData(row)), Some(Prop(row, "id")), None, None, None);
    }
    assert (db.tables, db.calls) == (outcome.0, outcome.1);
    return Some(row), None;
  }

  /**
    Without a user, or with results that fail the guard, nothing is sent and
    nothing changes; otherwise an error is reported exactly when the insert
    fails, and then the analysis is the only request and nothing changes.
   */
  lemma AnalysisErrors(
    tables: map<Table, seq<Record>>, calls: seq<Request>, failures: map<nat, Error>,
    user: Option<string>, now: int, pid: Json, analysis: Record)
    ensures var r := AnalysisOutcome(tables, calls, failures, user, now, pid, analysis);
      (r.3.Some? <==> user.None? || !ValidResults(analysis) || |calls| in failures)
      && (r.3.Some? ==> r.0 == tables && r.2.None?)
      && (user.None? || !ValidResults(analysis) ==> r.1 == calls)
      && (user.Some? && ValidResults(analysis) && |calls| in failures ==>
            r.1 == calls + [Request(POST, QuantumAnalyses, [])])
      && (r.3.None? ==> r.2.Some?)
  {
  }

  /** A saved analysis sends its three requests in order: the insert, the flag update, the event. */
  lemma AnalysisStepOrder(
    tables: map<Table, seq<Record>>, calls: seq<Request>, failures: map<nat, Error>,
    uid: string, now: int, pid: Json, analysis: Record)
    requires ValidResults(analysis) && |calls| !in failures
    ensures AnalysisOutcome(tables, calls, failures, Some(uid), now, pid, analysis).1
      == calls + [Request(POST, QuantumAnalyses, []), Request(PATCH, Patients, PatientService.OwnRow(pid, uid)),
                  Request(POST, JourneyEvents, [])]
  {
    var row := Stamped(AnalysisRecord(pid, uid, analysis), NewId(|calls|), now);
    var sent := calls + [Request(POST, QuantumAnalyses, [])];
    var t1 := tables[QuantumAnalyses := RowsIn(tables, QuantumAnalyses) + [row]];
    assert AnalysisOutcome(tables, calls, failures, Some(uid), now, pid, analysis)
      == AnalysisFollowUp(t1, sent, failures, uid, now, pid, row);
  }

  /**
    The stored analysis is the last row of the analyses table and is what the
    call returns, whatever happens to the flag update and the event.
   */
  lemma AnalysisStored(
    tables: map<Table, seq<Record>>, calls: seq<Request>, failures: map<nat, Error>,
    uid: string, now: int, pid: Json, analysis: Record)
    requires ValidResults(analysis) && |calls| !in failures
    ensures var r := AnalysisOutcome(tables, calls, failures, Some(uid), now, pid, analysis);
      var row := Stamped(AnalysisRecord(pid, uid, analysis), NewId(|calls|), now);
      RowsIn(r.0, QuantumAnalyses) == RowsIn(tables, QuantumAnalyses) + [row]
      && r.2 == Some(row) && r.3.None?
  {
    var row := Stamped(AnalysisRecord(pid, uid, analysis), NewId(|calls|), now);
    var sent := calls + [Request(POST, QuantumAnalyses, [])];
    var t1 := tables[QuantumAnalyses := RowsIn(tables, QuantumAnalyses) + [row]];
    assert AnalysisOutcome(tables, calls, failures, Some(uid), now, pid, analysis)
      == AnalysisFollowUp(t1, sent, failures, uid, now, pid, row);
  }

  /**
    After a successful insert the patient is flagged: when the flag update
    succeeds on the user's one row with that id, that row gets `has_analysis`
    true and `updated_at`, and the other patients are untouched; when the
    update fails or does not hit exactly one row, the patients are unchanged.
   */
  lemma AnalysisFlagSet(
    tables: map<Table, seq<Record>>, calls: seq<Request>, failures: map<nat, Error>,
    uid: string, now: int, pid: Json, analysis: Record)
    requires ValidResults(analysis) && |calls| !in failures
    ensures var r := AnalysisOutcome(tables, calls, failures, Some(uid), now, pid, analysis);
      var before := RowsIn(tables, Patients);
      var f := PatientService.OwnRow(pid, uid);
      var flagged := |calls| + 1 !in failures && |Where(before, f)| == 1;
      RowsIn(r.0, Patients) == (if flagged then Patched(before, f, PatientService.FlagPatch(true, now)) else before)
      && (flagged ==> forall i :: 0 <= i < |before| && Matches(before[i], f) ==>
            "has_analysis" in RowsIn(r.0, Patients)[i] && RowsIn(r.0, Patients)[i]["has_analysis"] == JBool(true))
  {
    var row := Stamped(AnalysisRecord(pid, uid, analysis), NewId(|calls|), now);
    var sent := calls + [Request(POST, QuantumAnalyses, [])];
    var t1 := tables[QuantumAnalyses := RowsIn(tables, QuantumAnalyses) + [row]];
    assert AnalysisOutcome(tables, calls, failures, Some(uid), now, pid, analysis)
      == AnalysisFollowUp(t1, sent, failures, uid, now, pid, row);
    assert RowsIn(t1, Patients) == RowsIn(tables, Patients) && |sent| == |calls| + 1;
  }

  /** The stored analysis gets the generated id and keeps the patient, the owner and the results it was given. */
  lemma AnalysisRowFields(pid: Json, uid: string, analysis: Record, k: nat, now: int)
    requires ValidResults(analysis)
    ensures var row := Stamped(AnalysisRecord(pid, uid, analysis), NewId(k), now);
      row["id"] == JStr(NewId(k)) && row["patient_id"] == pid && row["user_id"] == JStr(uid)
      && row["results"] == analysis["results"] && CategoriesOf(row) == Some(analysis["results"].fields["categories"])
  {
  }

  /**
    When the event request succeeds, exactly one event is appended to the
    journey table; when it fails the journey table is unchanged.
   */
  lemma AnalysisEventLogged(
    tables: map<Table, seq<Record>>, calls: seq<Request>, failures: map<nat, Error>,
    uid: string, now: int, pid: Json, analysis: Record)
    requires ValidResults(analysis) && |calls| !in failures
    ensures var r := AnalysisOutcome(tables, calls, failures, Some(uid), now, pid, analysis);
      var row := Stamped(AnalysisRecord(pid, uid, analysis), NewId(|calls|), now);
      var events := RowsIn(r.0, JourneyEvents);
      (|calls| + 2 in failures ==> events == RowsIn(tables, JourneyEvents))
      && (|calls| + 2 !in failures ==>
            events == RowsIn(tables, JourneyEvents) + [Stamped(AnalysisEvent(pid, uid, row, now), NewId(|calls| + 2), now)])
  {
    var row := Stamped(AnalysisRecord(pid, uid, analysis), NewId(|calls|), now);
    var sent := calls + [Request(POST, QuantumAnalyses, [])];
    var t1 := tables[QuantumAnalyses := RowsIn(tables, QuantumAnalyses) + [row]];
    assert AnalysisOutcome(tables, calls, failures, Some(uid), now, pid, analysis)
      == AnalysisFollowUp(t1, sent, failures, uid, now, pid, row);
    FollowUpEvent(t1, sent, failures, uid, now, pid, row);
  }

  /**
    The logged event is an `ANALYSIS_GENERATED` event of the patient by the
    user, naming the analysis in `event_data.analysisId` and in
    `related_analysis_id`, with the analysis's categories.
   */
  lemma AnalysisEventFields(pid: Json, uid: string, row: Record, now: int, k: nat)
    ensures var e := Stamped(AnalysisEvent(pid, uid, row, now), NewId(k), now);
      e["event_type"] == JStr("ANALYSIS_GENERATED") && e["related_analysis_id"] == Prop(row, "id")
      && e["patient_id"] == pid && e["user_id"] == JStr(uid) && e["timestamp"] == JNum(now)
      && e["event_data"] == JObj(Defined(map["analysisId" := Prop(row, "id")], "categories", CategoriesOf(row)))
      && e["id"] == JStr(NewId(k))
  {
  }

  /** The event step of the follow-up, on its own. */
  lemma FollowUpEvent(
    tables: map<Table, seq<Record>>, calls: seq<Request>, failures: map<nat, Error>,
    uid: string, now: int, pid: Json, row: Record)
    ensures var r := AnalysisFollowUp(tables, calls, failures, uid, now, pid, row);
      var events := RowsIn(r.0, JourneyEvents);
      (|calls| + 1 in failures ==> events == RowsIn(tables, JourneyEvents))
      && (|calls| + 1 !in failures ==>
            events == RowsIn(tables, JourneyEvents) + [Stamped(AnalysisEvent(pid, uid, row, now), NewId(|calls| + 1), now)])
  {
  }

  /**
    The flag update only warns: whether it fails or not, the call returns the
    same analysis and no error, and sends the same requests.
   */
  lemma AnalysisFlagOnlyWarns(
    tables: map<Table, seq<Record>>, calls: seq<Request>, failures: map<nat, Error>,
    user: Option<string>, now: int, pid: Json, analysis: Record, e: Error)
    ensures var r := AnalysisOutcome(tables, calls, failures, user, now, pid, analysis);
      var r' := AnalysisOutcome(tables, calls, failures[|calls| + 1 := e], user, now, pid, analysis);
      r.1 == r'.1 && r.2 == r'.2 && r.3 == r'.3
  {
  }

  /** `getAllAnalysesForPatient`: the user's analyses of the patient, newest `created_at` first. */
  method GetAllAnalysesForPatient(db: Store, user: Option<string>, pid: Json)
    returns (data: seq<Record>, error: Option<Error>)
    modifies db
    ensures db.tables == old(db.tables)
    ensures user.None? ==> data == [] && error == Some(NotAuthenticated) && db.calls == old(db.calls)
    ensures user.Some? ==>
      var f := JourneyService.OwnedBy(pid, "user_id", user.value);
      db.calls == old(db.calls) + [Request(GET, QuantumAnalyses, f)]
      && error == db.FailureAt(|old(db.calls)|)
      && data == if error.Some? then [] else Selected(db.Rows(QuantumAnalyses), f, Desc("created_at"))
  {
    if user.None? {
      return [], Some(NotAuthenticated);
    }
    data, error := db.Query(QuantumAnalyses, JourneyService.OwnedBy(pid, "user_id", user.value), Desc("created_at"));
  }
}
