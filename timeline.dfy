/**
  The patient journey timeline: the journey events sorted newest first, the
  evaluations joined with the titles of their techniques, and the title and
  description each event is shown with. The date text of an event is a
  parameter: locale formatting is not modelled.
 */
module Timeline {
  import opened Values
  import Text
  import Seqs
  import Backend
  import TechniquesService

  /** One rendered event: its heading, its description and its note line, if any. */
  datatype Item = Item(title: string, description: string, note: Option<string>)

  /** What the timeline card shows: the empty-state card, or one item per event. */
  datatype View = EmptyState | Items(items: seq<Item>)

  /** The details the timeline keeps per evaluation: the evaluation with its technique's title added. */
  type Details = map<Option<Json>, Record>

  const AnalysisTitle := "Análise Quântica 5D Realizada"
  const UnknownTechnique := "Técnica Desconhecida"
  const Unknown := "Desconhecida"

  /** `new Date(event.timestamp || event.created_at)` as an instant; a missing or non-numeric one reads as 0. */
  function TimeOf(e: Record): int {
    var t := Or(Prop(e, "timestamp"), Prop(e, "created_at"));
    if t.JNum? then t.n else 0
  }

  /** The comparator `(a, b) => time(b) - time(a)`: `a` may come first when it is no older than `b`. */
  function NewerFirst(): (Record, Record) -> bool {
    (a: Record, b: Record) => TimeOf(b) <= TimeOf(a)
  }

  lemma NewerFirstTotalPreorder()
    ensures Seqs.TotalPreorder(NewerFirst())
  {
  }

  /** `[...journeyEvents].sort(...)`: a sorted copy; the caller's list is a value and is left as it was. */
  function SortedEvents(events: seq<Record>): seq<Record> {
    Seqs.SortBy(events, NewerFirst())
  }

  /**
    The sorted events are the input events, each as often as it occurs, in
    non-increasing order of their instants; events at the same instant keep
    their input order.
   */
  lemma SortedEventsSpec(events: seq<Record>, t: int)
    ensures multiset(SortedEvents(events)) == multiset(events)
    ensures forall i, j :: 0 <= i < j < |SortedEvents(events)| ==> TimeOf(SortedEvents(events)[j]) <= TimeOf(SortedEvents(events)[i])
    ensures Seqs.Filter(SortedEvents(events), e => TimeOf(e) == t) == Seqs.Filter(events, e => TimeOf(e) == t)
  {
    NewerFirstTotalPreorder();
    Seqs.SortBySorted(events, NewerFirst());
    Seqs.SortByStable(events, NewerFirst(), e => TimeOf(e) == t);
  }

  /** `therapyKnowledgeBase.find(tk => tk.id === id)`: the first entry with that id (an absent id matches an absent id). */
  function FindById(kb: seq<Record>, id: Option<Json>): (r: Option<Record>)
    ensures r.Some? <==> exists i :: 0 <= i < |kb| && Get(kb[i], "id") == id
    ensures r.Some? ==> exists i :: 0 <= i < |kb| && kb[i] == r.value && Get(kb[i], "id") == id
                                    && forall j :: 0 <= j < i ==> Get(kb[j], "id") != id
    decreases |kb|
  {
    if kb == [] then None
    else if Get(kb[0], "id") == id then Some(kb[0])
    else
      var r := FindById(kb[1..], id);
      assert forall i :: 1 <= i < |kb| ==> kb[i] == kb[1..][i - 1];
      if r.Some? then
        var i :| 0 <= i < |kb[1..]| && kb[1..][i] == r.value && Get(kb[1..][i], "id") == id
                 && forall j :: 0 <= j < i ==> Get(kb[1..][j], "id") != id;
        assert kb[i + 1] == r.value;
        r
      else r
  }

  /** `techniqueInfo?.title || 'Técnica Desconhecida'` */
  function TechniqueTitle(evaluation: Record, kb: seq<Record>): Json {
    var info := FindById(kb, Get(evaluation, "knowledge_base_id"));
    Or(if info.Some? then Prop(info.value, "title") else JNull, JStr(UnknownTechnique))
  }

  /** `{ ...evalItem, technique_title }` */
  function DetailEntry(evaluation: Record, kb: seq<Record>): Record {
    evaluation["technique_title" := TechniqueTitle(evaluation, kb)]
  }

  /** The `reduce` that builds the details map: each evaluation stored under its id, later ones overwriting. */
  function DetailsMap(evaluations: seq<Record>, kb: seq<Record>): Details
    decreases |evaluations|
  {
    if evaluations == [] then map[]
    else
      var last := evaluations[|evaluations| - 1];
      DetailsMap(evaluations[..|evaluations| - 1], kb)[Get(last, "id") := DetailEntry(last, kb)]
  }

  /** The details map has a key exactly for the ids of the evaluations. */
  lemma {:induction false} DetailsMapKeys(evaluations: seq<Record>, kb: seq<Record>)
    ensures forall k :: k in DetailsMap(evaluations, kb) <==> exists i :: 0 <= i < |evaluations| && Get(evaluations[i], "id") == k
    decreases |evaluations|
  {
    if evaluations != [] {
      var n := |evaluations| - 1;
      var init := evaluations[..n];
      DetailsMapKeys(init, kb);
      assert forall i :: 0 <= i < n ==> evaluations[i] == init[i];
      assert evaluations == init + [evaluations[n]];
    }
  }

  /**
    Under the id of an evaluation that no later evaluation shares, the
    details map holds that evaluation together with its technique title.
   */
  lemma {:induction false} DetailsMapEntry(evaluations: seq<Record>, kb: seq<Record>, i: nat)
    requires i < |evaluations|
    requires forall j :: i < j < |evaluations| ==> Get(evaluations[j], "id") != Get(evaluations[i], "id")
    ensures Get(evaluations[i], "id") in DetailsMap(evaluations, kb)
    ensures DetailsMap(evaluations, kb)[Get(evaluations[i], "id")] == DetailEntry(evaluations[i], kb)
    decreases |evaluations|
  {
    var n := |evaluations| - 1;
    if i < n {
      var init := evaluations[..n];
      assert forall j :: i < j < n ==> init[j] == evaluations[j];
      DetailsMapEntry(init, kb, i);
      assert init[i] == evaluations[i];
    }
  }

  /** The title a detail entry carries is the title of the first entry of the knowledge base with the evaluation's technique id, when that is truthy. */
  lemma TechniqueTitleSpec(evaluation: Record, kb: seq<Record>)
    ensures var info := FindById(kb, Get(evaluation, "knowledge_base_id"));
      (info.Some? && Has(info.value, "title") ==> TechniqueTitle(evaluation, kb) == info.value["title"])
      && (info.None? || !Has(info.value, "title") ==> TechniqueTitle(evaluation, kb) == JStr(UnknownTechnique))
      && Truthy(TechniqueTitle(evaluation, kb))
  {
  }

  /** `v?.k`: a property of an object, `undefined` for anything else. */
  function Field(v: Option<Json>, k: string): (r: Option<Json>)
    ensures r.Some? ==> v.Some? && v.value.JObj? && k in v.value.fields
  {
    if v.Some? && v.value.JObj? && k in v.value.fields then Some(v.value.fields[k]) else None
  }

  /** Whether an optional value is present and truthy. */
  predicate Present(v: Option<Json>) {
    v.Some? && Truthy(v.value)
  }

  /** `type.replace(/_/g, ' ').toLowerCase()` with its first character upper-cased. */
  function DefaultTitle(eventType: string): (t: string)
    ensures |t| == |eventType|
    ensures forall i :: 0 <= i < |t| ==> t[i] != '_'
    ensures |t| > 0 ==> t[0] == Text.UpperChar(Text.LowerChar(if eventType[0] == '_' then ' ' else eventType[0]))
    ensures forall i :: 1 <= i < |t| ==> t[i] == Text.LowerChar(if eventType[i] == '_' then ' ' else eventType[i])
  {
    Text.Capitalize(Text.Lower(Text.ReplaceChar(eventType, '_', ' ')))
  }

  /**
    What the item needs to render without a type error: a string event type,
    and a string `analysisId` wherever the analysis branch takes its substring.
   */
  predicate Renderable(e: Record) {
    StrProp(e, "event_type").Some?
    && (Present(Field(Get(e, "event_data"), "analysisId")) ==> Field(Get(e, "event_data"), "analysisId").value.JStr?)
  }

  /** `details?.evaluation_results?.interpretacao_geral` */
  function Interpretation(d: Option<Record>): Option<Json> {
    if d.Some? then Field(Get(d.value, "evaluation_results"), "interpretacao_geral") else None
  }

  /** A detail entry whose general interpretation, when truthy, is a string (it is cut with `substring`). */
  predicate RenderableDetail(d: Record) {
    Present(Interpretation(Some(d))) ==> Interpretation(Some(d)).value.JStr?
  }

  /** The evaluation-id key of an event, `event.event_data?.technique_evaluation_id`. */
  function EvaluationKey(e: Record): Option<Json> {
    Field(Get(e, "event_data"), "technique_evaluation_id")
  }

  /** `event.event_data?.analysisId` */
  function AnalysisKey(e: Record): Option<Json> {
    Field(Get(e, "event_data"), "analysisId")
  }

  /** `techniqueDetails[key]`, `undefined` when the map has no entry. */
  function DetailOf(details: Details, key: Json): Option<Record> {
    var k := Some(key);
    if k in details then Some(details[k]) else None
  }

  /** The title and description of one event, and its note line when `notes` is truthy. */
  function EventItem(e: Record, details: Details, date: string): Item
    requires Renderable(e)
    requires forall k :: k in details ==> RenderableDetail(details[k])
  {
    var eventType := StrProp(e, "event_type").value;
    var note := if Has(e, "notes") then Some(Display(e["notes"])) else None;
    if eventType == "ANALYSIS_GENERATED" && Present(AnalysisKey(e)) then
      Item(AnalysisTitle, "ID da Análise: " + Text.Take(AnalysisKey(e).value.s, 8) + ". " + date, note)
    else if eventType == "TECHNIQUE_EVALUATION_COMPLETED" && Present(EvaluationKey(e)) then
      var d := DetailOf(details, EvaluationKey(e).value);
      var title := Or(if d.Some? then Prop(d.value, "technique_title") else JNull, JStr(Unknown));
      assert d.Some? ==> RenderableDetail(d.value);
      var g := Interpretation(d);
      var result := if Present(g) then " Resultado: " + Text.Take(g.value.s, 50) + "..." else "";
      Item("Avaliação de Técnica: " + Display(title), "Realizada em " + date + "." + result, note)
    else
      Item(DefaultTitle(eventType), "Evento registrado em " + date + ".", note)
  }

  /** Adding the technique title keeps an evaluation renderable. */
  lemma {:induction false} DetailsRenderable(evaluations: seq<Record>, kb: seq<Record>)
    requires forall i :: 0 <= i < |evaluations| ==> RenderableDetail(evaluations[i])
    ensures forall k :: k in DetailsMap(evaluations, kb) ==> RenderableDetail(DetailsMap(evaluations, kb)[k])
    decreases |evaluations|
  {
    if evaluations != [] {
      var n := |evaluations| - 1;
      DetailsRenderable(evaluations[..n], kb);
      assert Get(DetailEntry(evaluations[n], kb), "evaluation_results") == Get(evaluations[n], "evaluation_results");
    }
  }

  /**
    `PatientJourneyTimeline`: the empty-state card for a missing or empty
    list of events; otherwise one item per event, newest first, with the
    evaluation details joined in. `dateOf` is the date text of an instant.
   */
  function Render(events: Option<seq<Record>>, evaluations: seq<Record>, kb: seq<Record>, dateOf: int -> string): View
    requires events.Some? ==> forall e :: e in events.value ==> Renderable(e)
    requires forall i :: 0 <= i < |evaluations| ==> RenderableDetail(evaluations[i])
  {
    if events.None? || events.value == [] then EmptyState
    else
      var sorted := SortedEvents(events.value);
      var details := DetailsMap(evaluations, kb);
      DetailsRenderable(evaluations, kb);
      assert forall i :: 0 <= i < |sorted| ==> sorted[i] in multiset(events.value);
      Items(seq(|sorted|, i requires 0 <= i < |sorted| => EventItem(sorted[i], details, dateOf(TimeOf(sorted[i])))))
  }

  /**
    The empty-state card shows exactly when the events are missing or empty;
    otherwise there is one item per event, each rendered from the sorted
    events in turn.
   */
  lemma RenderShape(events: Option<seq<Record>>, evaluations: seq<Record>, kb: seq<Record>, dateOf: int -> string)
    requires events.Some? ==> forall e :: e in events.value ==> Renderable(e)
    requires forall i :: 0 <= i < |evaluations| ==> RenderableDetail(evaluations[i])
    ensures var v := Render(events, evaluations, kb, dateOf);
      (v.EmptyState? <==> events.None? || events.value == [])
      && (v.Items? ==> |v.items| == |events.value|)
  {
    if events.Some? && events.value != [] {
      assert |SortedEvents(events.value)| == |events.value|;
    }
  }

  /**
    Item `i` renders the `i`-th event of the sorted copy, with the details map
    of the evaluations and the date text of that event's instant.
   */
  lemma RenderItem(events: seq<Record>, evaluations: seq<Record>, kb: seq<Record>, dateOf: int -> string, i: nat)
    requires forall e :: e in events ==> Renderable(e)
    requires forall i :: 0 <= i < |evaluations| ==> RenderableDetail(evaluations[i])
    requires i < |events|
    ensures var v := Render(Some(events), evaluations, kb, dateOf);
      var e := SortedEvents(events)[i];
      v.Items? && |v.items| == |events| && e in events && Renderable(e)
      && (DetailsRenderable(evaluations, kb);
          v.items[i] == EventItem(e, DetailsMap(evaluations, kb), dateOf(TimeOf(e))))
  {
    DetailsRenderable(evaluations, kb);
    var sorted := SortedEvents(events);
    assert sorted[i] in multiset(events);
  }

  /** The default heading and description: every event that neither special branch takes. */
  lemma DefaultItem(e: Record, details: Details, date: string)
    requires Renderable(e)
    requires forall k :: k in details ==> RenderableDetail(details[k])
    requires var t := StrProp(e, "event_type").value;
      !(t == "ANALYSIS_GENERATED" && Present(AnalysisKey(e)))
      && !(t == "TECHNIQUE_EVALUATION_COMPLETED" && Present(EvaluationKey(e)))
    ensures EventItem(e, details, date).title == DefaultTitle(StrProp(e, "event_type").value)
    ensures EventItem(e, details, date).description == "Evento registrado em " + date + "."
  {
  }

  /** An analysis event with an `analysisId` gets the fixed heading and the first 8 characters of the id. */
  lemma AnalysisItem(e: Record, details: Details, date: string)
    requires Renderable(e)
    requires forall k :: k in details ==> RenderableDetail(details[k])
    requires StrProp(e, "event_type") == Some("ANALYSIS_GENERATED") && Present(AnalysisKey(e))
    ensures var item := EventItem(e, details, date);
      var id := AnalysisKey(e).value.s;
      item.title == AnalysisTitle
      && item.description == "ID da Análise: " + Text.Take(id, 8) + ". " + date
      && Text.Take(id, 8) <= id && |Text.Take(id, 8)| == if |id| < 8 then |id| else 8
  {
  }

  /**
    A technique-evaluation event whose `technique_evaluation_id` names the
    evaluation `evaluations[i]` (and no later evaluation has that id) is
    headed with that evaluation's technique title, which is never empty.
   */
  lemma TechniqueItemTitle(e: Record, evaluations: seq<Record>, kb: seq<Record>, date: string, i: nat)
    requires Renderable(e)
    requires forall j :: 0 <= j < |evaluations| ==> RenderableDetail(evaluations[j])
    requires StrProp(e, "event_type") == Some("TECHNIQUE_EVALUATION_COMPLETED") && Present(EvaluationKey(e))
    requires i < |evaluations| && Get(evaluations[i], "id") == EvaluationKey(e)
    requires forall j :: i < j < |evaluations| ==> Get(evaluations[j], "id") != Get(evaluations[i], "id")
    ensures (DetailsRenderable(evaluations, kb);
             EventItem(e, DetailsMap(evaluations, kb), date).title
             == "Avaliação de Técnica: " + Display(TechniqueTitle(evaluations[i], kb)))
  {
    DetailsRenderable(evaluations, kb);
    DetailsMapEntry(evaluations, kb, i);
    TechniqueTitleSpec(evaluations[i], kb);
    var d := DetailOf(DetailsMap(evaluations, kb), EvaluationKey(e).value);
    assert d == Some(DetailEntry(evaluations[i], kb));
    assert Prop(d.value, "technique_title") == TechniqueTitle(evaluations[i], kb);
  }

  /**
    A technique-evaluation event whose evaluation id the details map lacks is
    headed 'Desconhecida'.
   */
  lemma TechniqueItemUnknown(e: Record, details: Details, date: string)
    requires Renderable(e)
    requires forall k :: k in details ==> RenderableDetail(details[k])
    requires StrProp(e, "event_type") == Some("TECHNIQUE_EVALUATION_COMPLETED") && Present(EvaluationKey(e))
    requires EvaluationKey(e) !in details
    ensures EventItem(e, details, date).title == "Avaliação de Técnica: " + Unknown
  {
  }

  /**
    A technique-evaluation item's description is "Realizada em <date>.",
    followed by the first 50 characters of the general interpretation exactly
    when the evaluation's details have a truthy one.
   */
  lemma TechniqueItemDescription(e: Record, details: Details, date: string)
    requires Renderable(e)
    requires forall k :: k in details ==> RenderableDetail(details[k])
    requires StrProp(e, "event_type") == Some("TECHNIQUE_EVALUATION_COMPLETED") && Present(EvaluationKey(e))
    ensures var d := DetailOf(details, EvaluationKey(e).value);
      var g := Interpretation(d);
      var base := "Realizada em " + date + ".";
      var desc := EventItem(e, details, date).description;
      (!Present(g) ==> desc == base)
      && (Present(g) ==> g.value.JStr? && desc == base + " Resultado: " + Text.Take(g.value.s, 50) + "...")
  {
    var d := DetailOf(details, EvaluationKey(e).value);
    assert d.Some? ==> RenderableDetail(d.value);
  }

  /** An event's note line shows exactly when its `notes` are truthy. */
  lemma ItemNote(e: Record, details: Details, date: string)
    requires Renderable(e)
    requires forall k :: k in details ==> RenderableDetail(details[k])
    ensures EventItem(e, details, date).note.Some? <==> Has(e, "notes")
    ensures Has(e, "notes") ==> EventItem(e, details, date).note == Some(Display(e["notes"]))
  {
  }

  /**
    The event that saving a technique evaluation logs, once stored, is a
    `TECHNIQUE_EVALUATION_COMPLETED` event whose data has neither an
    `analysisId` nor a `technique_evaluation_id`: it names the evaluation
    `evaluationId`.
   */
  lemma LoggedEvaluationKeys(uid: string, evaluation: Record, now: int, newId: string)
    ensures var row := Backend.Stamped(TechniquesService.EvaluationEvent(uid, evaluation, now), newId, now);
      StrProp(row, "event_type") == Some("TECHNIQUE_EVALUATION_COMPLETED")
      && AnalysisKey(row).None? && EvaluationKey(row).None?
  {
    var event := TechniquesService.EvaluationEvent(uid, evaluation, now);
    TechniquesService.EvaluationEventFields(uid, evaluation, now);
    Backend.StampedFields(event, newId, now);
    assert "analysisId" !in event["event_data"].fields;
  }

  /**
    So the stored event never takes the timeline's technique branch: it is
    shown with the default heading derived from its type and the default
    description, whatever the details map holds.
   */
  lemma LoggedEvaluationShowsDefault(uid: string, evaluation: Record, now: int, newId: string, details: Details, date: string)
    requires forall k :: k in details ==> RenderableDetail(details[k])
    ensures var row := Backend.Stamped(TechniquesService.EvaluationEvent(uid, evaluation, now), newId, now);
      Renderable(row)
      && EventItem(row, details, date).title == DefaultTitle("TECHNIQUE_EVALUATION_COMPLETED")
      && EventItem(row, details, date).description == "Evento registrado em " + date + "."
  {
    LoggedEvaluationKeys(uid, evaluation, now, newId);
  }
}
