/**
  The results page's state (`useResultsPageLogic`): the patient, the
  analyses newest first with the current one chosen from them, the journey
  data, and the phase shown in the view, with the load and the phase update.
 */
module ResultsPage {
  import opened Values
  import Seqs
  import PatientService
  import ResultsView

  /** The analysis instant compared by `new Date(b.created_at) - new Date(a.created_at)`, as an integer. */
  function CreatedAt(a: Record): int {
    var t := Prop(a, "created_at");
    if t.JNum? then t.n else 0
  }

  /** The comparator: `a` may come first when it is no older than `b`. */
  function NewestFirst(): (Record, Record) -> bool {
    (a: Record, b: Record) => CreatedAt(b) <= CreatedAt(a)
  }

  /** `[...data].sort(...)` */
  function SortedAnalyses(analyses: seq<Record>): seq<Record> {
    Seqs.SortBy(analyses, NewestFirst())
  }

  /**
    The sorted analyses are the fetched ones, each as often as it occurs,
    in non-increasing order of `created_at`.
   */
  lemma SortedAnalysesSpec(analyses: seq<Record>)
    ensures multiset(SortedAnalyses(analyses)) == multiset(analyses)
    ensures forall i, j :: 0 <= i < j < |SortedAnalyses(analyses)| ==>
      CreatedAt(SortedAnalyses(analyses)[j]) <= CreatedAt(SortedAnalyses(analyses)[i])
  {
    assert Seqs.TotalPreorder(NewestFirst());
    Seqs.SortBySorted(analyses, NewestFirst());
  }

  /** The current analysis: the first of the sorted list when it is displayable, and none otherwise. */
  function CurrentAnalysis(sorted: seq<Record>): Option<Record> {
    if |sorted| > 0 && ResultsView.ValidAnalysis(sorted[0]) then Some(sorted[0]) else None
  }

  /**
    The current analysis is a fetched analysis no older than any other, and
    there is one iff the newest is displayable: an older displayable analysis
    is never taken in its place.
   */
  lemma CurrentAnalysisSpec(analyses: seq<Record>)
    ensures var c := CurrentAnalysis(SortedAnalyses(analyses));
      (c.Some? <==> analyses != [] && ResultsView.ValidAnalysis(SortedAnalyses(analyses)[0]))
      && (c.Some? ==> c.value in analyses && ResultsView.ValidAnalysis(c.value)
                      && forall a :: a in analyses ==> CreatedAt(a) <= CreatedAt(c.value))
  {
    var sorted := SortedAnalyses(analyses);
    SortedAnalysesSpec(analyses);
    if sorted != [] {
      assert sorted[0] in multiset(analyses);
      forall a | a in analyses
        ensures CreatedAt(a) <= CreatedAt(sorted[0])
      {
        assert a in multiset(sorted);
        var j :| 0 <= j < |sorted| && sorted[j] == a;
        if j > 0 {
          assert CreatedAt(sorted[j]) <= CreatedAt(sorted[0]);
        }
      }
    }
  }

  /** The newest analysis not being displayable leaves no current analysis, whatever the older ones hold. */
  lemma NoFallback(analyses: seq<Record>)
    requires analyses != [] && !ResultsView.ValidAnalysis(SortedAnalyses(analyses)[0])
    ensures CurrentAnalysis(SortedAnalyses(analyses)).None?
  {
  }

  /** `current_phase_number || 1` */
  function PhaseNumber(patient: Record): (n: Json)
    ensures Truthy(n)
  {
    Or(Prop(patient, "current_phase_number"), JNum(1))
  }

  /** A missing, null or zero phase number shows as phase 1; any other number is kept. */
  lemma PhaseNumberDefault(patient: Record)
    ensures Prop(patient, "current_phase_number") in {JNull, JNum(0)} ==> PhaseNumber(patient) == JNum(1)
    ensures Prop(patient, "current_phase_number").JNum? && Prop(patient, "current_phase_number") != JNum(0)
      ==> PhaseNumber(patient) == Prop(patient, "current_phase_number")
  {
  }

  /** What the five parallel fetches answered: the patient lookup and the four lists (`data`, when truthy). */
  datatype Answers = Answers(
    patient: PatientService.Status,
    analyses: Option<seq<Record>>,
    events: Option<seq<Record>>,
    evaluations: Option<seq<Record>>,
    knowledgeBase: Option<seq<Record>>)

  /** The state the hook exposes. */
  datatype View = View(
    patient: Option<Record>,
    currentAnalysis: Option<Record>,
    allAnalyses: seq<Record>,
    journeyEvents: seq<Record>,
    techniqueEvaluations: seq<Record>,
    therapyKnowledgeBase: seq<Record>,
    isLoading: bool,
    currentPhaseNumber: Json,
    phaseStartDate: Json,
    currentPhaseIdPk: Json)

  /** `response.data || []` */
  function OrEmpty(data: Option<seq<Record>>): seq<Record> {
    if data.Some? then data.value else []
  }

  /**
    `fetchData`: without a patient id nothing changes; if the fan-out
    throws, the patient and every collection are cleared; if the patient
    lookup fails only loading ends; otherwise every piece of state is set
    from its answer.
   */
  function Fetched(v: View, patientId: Json, answers: Option<Answers>): View {
    if !Truthy(patientId) then v
    else if answers.None? then
      v.(patient := None, allAnalyses := [], currentAnalysis := None, journeyEvents := [],
         techniqueEvaluations := [], therapyKnowledgeBase := [], isLoading := false)
    else
      var a := answers.value;
      if !(a.patient.success && a.patient.data.Some?) then v.(isLoading := false)
      else
        var p := a.patient.data.value;
        var sorted := SortedAnalyses(OrEmpty(a.analyses));
        v.(patient := Some(p), currentPhaseNumber := PhaseNumber(p), phaseStartDate := Prop(p, "phase_start_date"),
           currentPhaseIdPk := Prop(p, "current_phase_id_pk"))
         .(allAnalyses := sorted, currentAnalysis := CurrentAnalysis(sorted))
         .(journeyEvents := OrEmpty(a.events), techniqueEvaluations := OrEmpty(a.evaluations),
           therapyKnowledgeBase := OrEmpty(a.knowledgeBase), isLoading := false)
  }

  /**
    A failed patient lookup changes nothing but the loading flag; a thrown
    fan-out leaves no patient and no collection and keeps the phase shown;
    a successful load shows the fetched patient with its phase number
    (phase 1 by default), its phase start and its phase event, each list as
    answered or empty when missing, the analyses newest first, and as the
    current analysis the newest one when it is displayable.
   */
  lemma FetchedSpec(v: View, patientId: Json, answers: Option<Answers>)
    requires Truthy(patientId)
    ensures var r := Fetched(v, patientId, answers);
      !r.isLoading
      && (answers.None? ==> r.patient.None? && r.currentAnalysis.None? && r.allAnalyses == [] && r.journeyEvents == []
                            && r.techniqueEvaluations == [] && r.therapyKnowledgeBase == []
                            && r.currentPhaseNumber == v.currentPhaseNumber && r.phaseStartDate == v.phaseStartDate
                            && r.currentPhaseIdPk == v.currentPhaseIdPk)
      && (answers.Some? && !(answers.value.patient.success && answers.value.patient.data.Some?) ==> r == v.(isLoading := false))
    ensures var r := Fetched(v, patientId, answers);
      answers.Some? && answers.value.patient.success && answers.value.patient.data.Some? ==>
        var a, p := answers.value, answers.value.patient.data.value;
        r.patient == Some(p)
        && r.currentPhaseNumber == PhaseNumber(p) && Truthy(r.currentPhaseNumber)
        && r.phaseStartDate == Prop(p, "phase_start_date") && r.currentPhaseIdPk == Prop(p, "current_phase_id_pk")
        && r.journeyEvents == OrEmpty(a.events) && r.techniqueEvaluations == OrEmpty(a.evaluations)
        && r.therapyKnowledgeBase == OrEmpty(a.knowledgeBase)
        && (a.analyses.None? ==> r.allAnalyses == [] && r.currentAnalysis.None?)
        && multiset(r.allAnalyses) == multiset(OrEmpty(a.analyses))
        && (forall i, j :: 0 <= i < j < |r.allAnalyses| ==> CreatedAt(r.allAnalyses[j]) <= CreatedAt(r.allAnalyses[i]))
        && (r.currentAnalysis.Some? <==> r.allAnalyses != [] && ResultsView.ValidAnalysis(r.allAnalyses[0]))
        && (r.currentAnalysis.Some? ==> r.currentAnalysis.value == r.allAnalyses[0]
                                         && forall x :: x in OrEmpty(a.analyses) ==> CreatedAt(x) <= CreatedAt(r.currentAnalysis.value))
  {
    if answers.Some? && answers.value.patient.success && answers.value.patient.data.Some? {
      var analyses := OrEmpty(answers.value.analyses);
      SortedAnalysesSpec(analyses);
      CurrentAnalysisSpec(analyses);
    }
  }

  /** `{ ...prev, current_phase_number, phase_start_date, current_phase_id_pk }` (spreading `null` gives `{}`). */
  function PhasePatched(prev: Option<Record>, n: Json, start: Json, pk: Json): Record {
    var base := if prev.Some? then prev.value else map[];
    base["current_phase_number" := n]["phase_start_date" := start]["current_phase_id_pk" := pk]
  }

  /** The phase update sets the three phase fields on the patient and leaves every other field as it was. */
  lemma PhasePatchedSpec(prev: Option<Record>, n: Json, start: Json, pk: Json)
    ensures var r := PhasePatched(prev, n, start, pk);
      r["current_phase_number"] == n && r["phase_start_date"] == start && r["current_phase_id_pk"] == pk
      && (forall k :: k in r && k !in {"current_phase_number", "phase_start_date", "current_phase_id_pk"} ==>
            prev.Some? && k in prev.value && r[k] == prev.value[k])
      && (prev.Some? ==> forall k :: k in prev.value ==> k in r)
  {
  }

  /** The results page hook's state. */
  class ResultsPage {
    var patient: Option<Record>
    var currentAnalysis: Option<Record>
    var allAnalyses: seq<Record>
    var journeyEvents: seq<Record>
    var techniqueEvaluations: seq<Record>
    var therapyKnowledgeBase: seq<Record>
    var isLoading: bool
    var currentPhaseNumber: Json
    var phaseStartDate: Json
    var currentPhaseIdPk: Json

    function State(): View
      reads this
    {
      View(patient, currentAnalysis, allAnalyses, journeyEvents, techniqueEvaluations, therapyKnowledgeBase,
           isLoading, currentPhaseNumber, phaseStartDate, currentPhaseIdPk)
    }

    /** The hook's initial state: loading, nothing fetched, phase 1. */
    constructor ()
      ensures State() == View(None, None, [], [], [], [], true, JNum(1), JNull, JNull)
    {
      patient := None;
      currentAnalysis := None;
      allAnalyses := [];
      journeyEvents := [];
      techniqueEvaluations := [];
      therapyKnowledgeBase := [];
      isLoading := true;
      currentPhaseNumber := JNum(1);
      phaseStartDate := JNull;
      currentPhaseIdPk := JNull;
    }

    /** `fetchData`, given what the fan-out answered (`None` when it threw). */
    method FetchData(patientId: Json, answers: Option<Answers>)
      modifies this
      ensures State() == Fetched(old(State()), patientId, answers)
    {
      if !Truthy(patientId) {
        return;
      }
      isLoading := true;
      if answers.None? {
        patient := None;
        allAnalyses := [];
        currentAnalysis := None;
        journeyEvents := [];
        techniqueEvaluations := [];
        therapyKnowledgeBase := [];
        isLoading := false;
        return;
      }
      var a := answers.value;
      if a.patient.success && a.patient.data.Some? {
        ShowPatient(a.patient.data.value);
      } else {
        isLoading := false;
        return;
      }
      ghost var shown := State();
      ShowAnalyses(a.analyses);
      ghost var analysed := State();
      journeyEvents := OrEmpty(a.events);
      techniqueEvaluations := OrEmpty(a.evaluations);
      therapyKnowledgeBase := OrEmpty(a.knowledgeBase);
      isLoading := false;
      assert State() == analysed.(journeyEvents := OrEmpty(a.events), techniqueEvaluations := OrEmpty(a.evaluations),
                                  therapyKnowledgeBase := OrEmpty(a.knowledgeBase), isLoading := false);
    }

    /** The patient block of `fetchData`: the patient and its phase, phase 1 by default. */
    method ShowPatient(p: Record)
      modifies this
      ensures State() == old(State()).(patient := Some(p), currentPhaseNumber := PhaseNumber(p),
                                       phaseStartDate := Prop(p, "phase_start_date"),
                                       currentPhaseIdPk := Prop(p, "current_phase_id_pk"))
    {
      patient := Some(p);
      currentPhaseNumber := PhaseNumber(p);
      phaseStartDate := Prop(p, "phase_start_date");
      currentPhaseIdPk := Prop(p, "current_phase_id_pk");
    }

    /** The analyses block of `fetchData`: the sorted list, and the newest as current when it is displayable. */
    method ShowAnalyses(data: Option<seq<Record>>)
      modifies this
      ensures State() == old(State()).(allAnalyses := SortedAnalyses(OrEmpty(data)),
                                       currentAnalysis := CurrentAnalysis(SortedAnalyses(OrEmpty(data))))
    {
      if data.Some? {
        var sorted := SortedAnalyses(data.value);
        allAnalyses := sorted;
        if |sorted| > 0 {
          var latest := sorted[0];
          if ResultsView.ValidAnalysis(latest) {
            currentAnalysis := Some(latest);
          } else {
            currentAnalysis := None;
          }
        } else {
          currentAnalysis := None;
        }
      } else {
        allAnalyses := [];
        currentAnalysis := None;
      }
    }

    /** `handlePhaseUpdate`: the phase in view state and on the patient; nothing else changes. */
    method HandlePhaseUpdate(n: Json, start: Json, pk: Json)
      modifies this
      ensures State() == old(State()).(currentPhaseNumber := n, phaseStartDate := start, currentPhaseIdPk := pk,
                                       patient := Some(PhasePatched(old(patient), n, start, pk)))
    {
      currentPhaseNumber := n;
      phaseStartDate := start;
      currentPhaseIdPk := pk;
      patient := Some(PhasePatched(patient, n, start, pk));
    }
  }
}
