/**
  The reports page (`ReportsPage`): the therapist's patients to choose from,
  the journey report generated for the chosen one, and how each event of the
  report is headed and detailed.
 */
module Reports {
  import opened Values
  import opened Backend
  import Text
  import JourneyService
  import Dashboard
  import PatientService

  // ---------------------------------------------------------------- event heading

  /** `\b\w`: a word character not preceded by one. */
  predicate WordStart(t: string, i: nat)
    requires i < |t|
  {
    Text.IsWordChar(t[i]) && (i == 0 || !Text.IsWordChar(t[i - 1]))
  }

  /** `t.replace(/\b\w/g, l => l.toUpperCase())` */
  function CapitalizeWords(t: string): (r: string)
    ensures |r| == |t|
    ensures forall i :: 0 <= i < |t| ==> r[i] == if WordStart(t, i) then Text.UpperChar(t[i]) else t[i]
  {
    seq(|t|, i requires 0 <= i < |t| => if WordStart(t, i) then Text.UpperChar(t[i]) else t[i])
  }

  /** `event_type.replace(/_/g, ' ').toLowerCase().replace(/\b\w/g, l => l.toUpperCase())` */
  function Heading(eventType: string): string {
    CapitalizeWords(Text.Lower(Text.ReplaceChar(eventType, '_', ' ')))
  }

  /** The spelled-out, lower-cased event type the heading capitalises. */
  function Spelled(eventType: string): (t: string)
    ensures |t| == |eventType|
    ensures '_' !in t
    ensures forall i :: 0 <= i < |t| ==> !Text.IsUpperLetter(t[i])
  {
    var t := Text.Lower(Text.ReplaceChar(eventType, '_', ' '));
    assert forall i :: 0 <= i < |t| ==> t[i] != '_' by {
      forall i | 0 <= i < |t| ensures t[i] != '_' {
        assert Text.ReplaceChar(eventType, '_', ' ')[i] != '_';
      }
    }
    t
  }

  /**
    The heading has one character per character of the event type and no
    underscore; a character starting a word is upper-cased and every other
    character is the lower-cased (spelled-out) one.
   */
  lemma HeadingShape(eventType: string)
    ensures Heading(eventType) == CapitalizeWords(Spelled(eventType))
    ensures |Heading(eventType)| == |eventType|
    ensures '_' !in Heading(eventType)
  {
    var t := Spelled(eventType);
    var h := Heading(eventType);
    forall i | 0 <= i < |h| ensures h[i] != '_' {
      assert t[i] != '_';
    }
  }

  /** Lower-casing undoes the word capitalisation of a lower-cased text. */
  lemma LowerOfCapitalized(t: string)
    requires forall i :: 0 <= i < |t| ==> !Text.IsUpperLetter(t[i])
    ensures Text.Lower(CapitalizeWords(t)) == t
  {
    var c := CapitalizeWords(t);
    forall i | 0 <= i < |t| ensures Text.Lower(c)[i] == t[i] {
      assert Text.LowerChar(t[i]) == t[i];
    }
  }

  /** Heading a heading changes nothing. */
  lemma HeadingIdempotent(eventType: string)
    ensures Heading(Heading(eventType)) == Heading(eventType)
  {
    HeadingShape(eventType);
    var t := Spelled(eventType);
    var h := Heading(eventType);
    assert Text.ReplaceChar(h, '_', ' ') == h;
    LowerOfCapitalized(t);
  }

  /** An event type in upper-case letters and underscores, as the application names them. */
  predicate SnakeCase(eventType: string) {
    forall i :: 0 <= i < |eventType| ==> 'A' <= eventType[i] <= 'Z' || eventType[i] == '_'
  }

  /**
    For such a type the heading turns each underscore into a space, keeps the
    first letter of each word and lower-cases the others: `PHASE_STARTED`
    becomes `Phase Started`.
   */
  lemma SnakeCaseHeading(eventType: string)
    requires SnakeCase(eventType)
    ensures var h := Heading(eventType);
      |h| == |eventType|
      && forall i :: 0 <= i < |eventType| ==>
           h[i] == if eventType[i] == '_' then ' '
                   else if i == 0 || eventType[i - 1] == '_' then eventType[i]
                   else Text.LowerChar(eventType[i])
  {
    var t := Spelled(eventType);
    var h := Heading(eventType);
    HeadingShape(eventType);
    forall i | 0 <= i < |eventType|
      ensures h[i] == if eventType[i] == '_' then ' '
                      else if i == 0 || eventType[i - 1] == '_' then eventType[i]
                      else Text.LowerChar(eventType[i])
    {
      SpelledAt(eventType, i);
      if i > 0 {
        SpelledAt(eventType, i - 1);
      }
    }
  }

  /** One character of a snake-case type, spelled out: a space or a lower-case letter that `toUpperCase` restores. */
  lemma SpelledAt(eventType: string, i: nat)
    requires SnakeCase(eventType) && i < |eventType|
    ensures var t := Spelled(eventType);
      (eventType[i] == '_' ==> t[i] == ' ' && !Text.IsWordChar(t[i]))
      && (eventType[i] != '_' ==> t[i] == Text.LowerChar(eventType[i]) && Text.IsWordChar(t[i])
                                  && Text.UpperChar(t[i]) == eventType[i])
  {
    var r := Text.ReplaceChar(eventType, '_', ' ');
    assert Spelled(eventType)[i] == Text.LowerChar(r[i]);
  }

  // ---------------------------------------------------------------- event details

  /** What an event card shows below its heading. */
  datatype Details =
    | NoDetails
    | AnalysisSummary(shortId: Option<string>, categoryNames: set<string>)
    | RawData(data: Json)

  /**
    `renderEventData`: nothing without event data; for a generated analysis
    whose data has categories, the first eight characters of the related
    analysis id and each category name with its first letter upper-cased;
    otherwise the data itself.
   */
  function EventDetails(event: Record): Details {
    var data := Prop(event, "event_data");
    if !Truthy(data) then NoDetails
    else if Prop(event, "event_type") == JStr("ANALYSIS_GENERATED") && data.JObj? && Truthy(Prop(data.fields, "categories")) then
      var id := Prop(event, "related_analysis_id");
      var names := set k | k in Entries(Prop(data.fields, "categories")).Keys :: Text.Capitalize(k);
      AnalysisSummary(if id.JStr? then Some(Text.Take(id.s, 8)) else None, names)
    else RawData(data)
  }

  /**
    The summary shows for generated analyses with categories and only for
    them; its id is at most eight characters, a prefix of the related
    analysis id, and its names are exactly the category names with the first
    letter upper-cased and the rest kept.
   */
  lemma EventDetailsSpec(event: Record)
    ensures var d := EventDetails(event);
      (d.NoDetails? <==> !Truthy(Prop(event, "event_data")))
      && (d.AnalysisSummary? <==>
            (Truthy(Prop(event, "event_data")) && Prop(event, "event_type") == JStr("ANALYSIS_GENERATED")
             && Prop(event, "event_data").JObj? && Truthy(Prop(Prop(event, "event_data").fields, "categories"))))
      && (d.RawData? ==> d.data == Prop(event, "event_data"))
    ensures var d := EventDetails(event);
      d.AnalysisSummary? && d.shortId.Some? ==>
        |d.shortId.value| <= 8 && d.shortId.value <= Prop(event, "related_analysis_id").s
    ensures var d := EventDetails(event);
      d.AnalysisSummary? ==>
        var keys := Entries(Prop(Prop(event, "event_data").fields, "categories")).Keys;
        (forall k :: k in keys ==> Text.Capitalize(k) in d.categoryNames)
        && (forall n :: n in d.categoryNames ==>
              (exists k :: k in keys && |n| == |k| && (k != [] ==> n[0] == Text.UpperChar(k[0]) && n[1..] == k[1..])))
        && |d.categoryNames| <= |keys|
  {
    var d := EventDetails(event);
    if d.AnalysisSummary? {
      var keys := Entries(Prop(Prop(event, "event_data").fields, "categories")).Keys;
      ImageNoLarger(keys);
    }
  }

  /** Capitalising a set of names never yields more names. */
  lemma {:induction false} ImageNoLarger(keys: set<string>)
    ensures |set k | k in keys :: Text.Capitalize(k)| <= |keys|
    decreases |keys|
  {
    if keys != {} {
      var k :| k in keys;
      var rest := keys - {k};
      ImageNoLarger(rest);
      assert (set x | x in keys :: Text.Capitalize(x)) == (set x | x in rest :: Text.Capitalize(x)) + {Text.Capitalize(k)};
    }
  }

  // ---------------------------------------------------------------- page state

  /** `patients.find(p => p.id === selectedPatientId)` */
  function SelectedPatient(patients: seq<Record>, id: string): (r: Option<Record>)
    ensures r.Some? ==> r.value in patients && Get(r.value, "id") == Some(JStr(id))
    ensures r.None? <==> forall i :: 0 <= i < |patients| ==> Get(patients[i], "id") != Some(JStr(id))
    decreases |patients|
  {
    if patients == [] then None
    else if Get(patients[0], "id") == Some(JStr(id)) then Some(patients[0])
    else
      var r := SelectedPatient(patients[1..], id);
      assert forall i :: 1 <= i < |patients| ==> patients[i] == patients[1..][i - 1];
      r
  }

  /** The patient found is the first one with the id. */
  lemma {:induction false} SelectedPatientFirst(patients: seq<Record>, id: string)
    ensures SelectedPatient(patients, id).Some? ==>
      exists i :: 0 <= i < |patients| && patients[i] == SelectedPatient(patients, id).value
        && forall j :: 0 <= j < i ==> Get(patients[j], "id") != Some(JStr(id))
    decreases |patients|
  {
    if patients != [] && Get(patients[0], "id") != Some(JStr(id)) {
      SelectedPatientFirst(patients[1..], id);
      if SelectedPatient(patients, id).Some? {
        var i :| 0 <= i < |patients[1..]| && patients[1..][i] == SelectedPatient(patients, id).value
          && forall j :: 0 <= j < i ==> Get(patients[1..][j], "id") != Some(JStr(id));
        assert patients[i + 1] == SelectedPatient(patients, id).value;
        assert forall j :: 1 <= j < i + 1 ==> patients[j] == patients[1..][j - 1];
      }
    }
  }

  /** The filter `getAllJourneyEventsForPatient` selects the events by. */
  function PatientEvents(patientId: string, uid: string): Filter {
    JourneyService.OwnedBy(JStr(patientId), "user_id", uid)
  }

  /** What `getAllJourneyEventsForPatient` answers for the store in this state: the events, or an error and []. */
  function EventsAnswer(tables: map<Table, seq<Record>>, calls: seq<Request>, failures: map<nat, Error>,
                        user: Option<string>, patientId: string): (seq<Record>, Option<Error>)
  {
    if user.None? then ([], Some(JourneyService.NotAuthenticated))
    else if |calls| in failures then ([], Some(failures[|calls|]))
    else (Selected(RowsIn(tables, JourneyEvents), PatientEvents(patientId, user.value), Desc("timestamp")), None)
  }

  /** `response.data` read as a condition: the service's lists are arrays, which are always truthy. */
  predicate DataPresent(data: seq<Record>) {
    Truthy(JArr(seq(|data|, i requires 0 <= i < |data| => JObj(data[i]))))
  }

  /**
    The report as written: `if (response.data)` keeps the answer's list, and
    the error branch, which clears the report, is never reached.
   */
  function ReportAsWritten(answer: (seq<Record>, Option<Error>)): Option<seq<Record>> {
    if DataPresent(answer.0) then Some(answer.0) else None
  }

  /** A failed fetch shows an empty report, not the cleared one, as the code is written. */
  lemma FailedFetchShowsEmptyReport(e: Error)
    ensures ReportAsWritten(([], Some(e))) == Some([])
    ensures ReportAsWritten(([], Some(e))) != ReportAfterFetch(([], Some(e)))
  {
  }

  /** The report after a fetch as intended: cleared on an error, the fetched events otherwise. */
  function ReportAfterFetch(answer: (seq<Record>, Option<Error>)): (r: Option<seq<Record>>)
    ensures r.None? <==> answer.1.Some?
    ensures r.Some? ==> r.value == answer.0
  {
    if answer.1.Some? then None else Some(answer.0)
  }

  /** A successful fetch leaves the two readings in agreement. */
  lemma ReportReadingsAgree(answer: (seq<Record>, Option<Error>))
    requires answer.1.None?
    ensures ReportAsWritten(answer) == ReportAfterFetch(answer)
  {
  }

  /** The report is exactly the user's events of the patient, newest first, when the fetch succeeds. */
  lemma ReportContents(tables: map<Table, seq<Record>>, calls: seq<Request>, failures: map<nat, Error>, uid: string, patientId: string)
    requires |calls| !in failures
    ensures var r := ReportAfterFetch(EventsAnswer(tables, calls, failures, Some(uid), patientId));
      r.Some?
      && multiset(r.value) == multiset(Where(RowsIn(tables, JourneyEvents), PatientEvents(patientId, uid)))
      && Selected(RowsIn(tables, JourneyEvents), PatientEvents(patientId, uid), Desc("timestamp")) == r.value
  {
    SelectedSpec(RowsIn(tables, JourneyEvents), PatientEvents(patientId, uid), Desc("timestamp"));
  }

  /** The page's state. */
  datatype View = View(patients: seq<Record>, selectedPatientId: string, reportData: Option<seq<Record>>,
                       isLoadingPatients: bool, isLoadingReport: bool)

  class ReportsPage {
    var patients: seq<Record>
    var selectedPatientId: string
    var reportData: Option<seq<Record>>
    var isLoadingPatients: bool
    var isLoadingReport: bool

    function State(): View
      reads this
    {
      View(patients, selectedPatientId, reportData, isLoadingPatients, isLoadingReport)
    }

    constructor ()
      ensures State() == View([], "", None, true, false)
    {
      patients := [];
      selectedPatientId := "";
      reportData := None;
      isLoadingPatients := true;
      isLoadingReport := false;
    }

    /**
      The patient-list effect: nothing without a session; otherwise the
      listing's data, which is `[]` when it fails, and loading is over.
     */
    method FetchPatients(db: Store, session: bool, user: Option<string>)
      modifies this, db
      ensures db.tables == old(db.tables)
      ensures !session ==> State() == old(State()) && db.calls == old(db.calls)
      ensures session ==>
        db.calls == old(db.calls) + Dashboard.LoadRequests(JBool(true), user)
        && State() == old(State()).(patients := Dashboard.FetchAnswer(old(db.tables), old(db.calls), db.failures, user).0,
                                    isLoadingPatients := false)
    {
      if !session {
        return;
      }
      isLoadingPatients := true;
      ghost var answer := Dashboard.FetchAnswer(db.tables, db.calls, db.failures, user);
      var data, err := PatientService.GetAllPatients(db, user);
      assert (data, err) == answer;
      if DataPresent(data) {
        patients := data;
      }
      isLoadingPatients := false;
    }

    /** The patient chosen in the selector. */
    method SelectPatient(id: string)
      modifies this
      ensures State() == old(State()).(selectedPatientId := id)
    {
      selectedPatientId := id;
    }

    /**
      `handleGenerateReport`: without a chosen patient nothing is fetched and
      nothing changes; otherwise the patient's events are fetched and the
      report becomes what `ReportAfterFetch` makes of the answer, which is
      the code as written whenever the fetch succeeds.
     */
    method GenerateReport(db: Store, user: Option<string>)
      modifies this, db
      ensures db.tables == old(db.tables)
      ensures selectedPatientId == "" ==> State() == old(State()) && db.calls == old(db.calls)
      ensures selectedPatientId != "" ==>
        db.calls == old(db.calls) + (if user.Some? then [Request(GET, JourneyEvents, PatientEvents(selectedPatientId, user.value))] else [])
        && State() == old(State()).(reportData := ReportAfterFetch(EventsAnswer(old(db.tables), old(db.calls), db.failures, user, selectedPatientId)),
                                    isLoadingReport := false)
    ensures selectedPatientId != "" && EventsAnswer(old(db.tables), old(db.calls), db.failures, user, selectedPatientId).1.None? ==>
      reportData == ReportAsWritten(EventsAnswer(old(db.tables), old(db.calls), db.failures, user, selectedPatientId))
    {
      if selectedPatientId == "" {
        return;
      }
      isLoadingReport := true;
      ghost var answer := EventsAnswer(db.tables, db.calls, db.failures, user, selectedPatientId);
      var data, err := JourneyService.GetAllJourneyEventsForPatient(db, user, JStr(selectedPatientId));
      assert (data, err) == answer;
      reportData := ReportAfterFetch((data, err));
      if err.None? {
        ReportReadingsAgree((data, err));
      }
      isLoadingReport := false;
    }
  }
}
