/**
  The results screen's decisions (`ResultsView`): which analyses count as
  displayable, which cards show, and how the current analysis id is shown.
 */
module ResultsView {
  import opened Values
  import Text
  import AnalysisService

  /**
    `a.results && a.results.categories && Object.keys(a.results.categories).length > 0`:
    the results are an object whose `categories` has at least one key.
   */
  predicate ValidAnalysis(a: Record) {
    var results := Prop(a, "results");
    results.JObj? && var c := Prop(results.fields, "categories"); Truthy(c) && KeyCount(c) > 0
  }

  /** `hasValidCurrentAnalysis` */
  predicate HasValidCurrentAnalysis(current: Option<Record>) {
    current.Some? && ValidAnalysis(current.value)
  }

  /** `hasHistoryForEvolution` */
  predicate HasHistoryForEvolution(all: seq<Record>) {
    |all| > 0 && exists i :: 0 <= i < |all| && ValidAnalysis(all[i])
  }

  /**
    For an analysis the save accepts, being displayable means exactly that
    its categories object has a key.
   */
  lemma SavedAnalysisValidity(a: Record)
    requires AnalysisService.ValidResults(a)
    ensures ValidAnalysis(a) <==> KeyCount(a["results"].fields["categories"]) > 0
  {
  }

  /**
    An analysis whose categories are the empty object `{}` passes the save
    check yet is not displayable.
   */
  lemma EmptyCategoriesSavedButInvalid()
    ensures var a := map["results" := JObj(map["categories" := JObj(map[])])];
      AnalysisService.ValidResults(a) && !ValidAnalysis(a)
  {
    var a := map["results" := JObj(map["categories" := JObj(map[])])];
    assert Prop(a, "results") == JObj(map["categories" := JObj(map[])]);
    assert Prop(a["results"].fields, "categories") == JObj(map[]);
  }

  /** Which "latest analysis" card shows. */
  datatype Latest = NoLatest | Charts(recommendations: bool) | ChartUnavailable

  /** Which evolution card shows. */
  datatype Evolution = EvolutionChart | EvolutionUnavailable | NoEvolution

  /** The cards of the results screen that depend on the analyses. */
  datatype Cards = Cards(latest: Latest, problem: bool, evolution: Evolution)

  function Layout(current: Option<Record>, all: seq<Record>): Cards {
    var latest :=
      if current.None? then NoLatest
      else if HasValidCurrentAnalysis(current) then Charts(Has(current.value, "recommendations"))
      else ChartUnavailable;
    var evolution :=
      if HasHistoryForEvolution(all) then EvolutionChart
      else if |all| > 0 then EvolutionUnavailable
      else NoEvolution;
    Cards(latest, current.None? && |all| > 0, evolution)
  }

  /**
    The charts show iff the current analysis is displayable and the
    "unavailable" card iff there is one that is not; the problem card iff
    there is no current analysis but the list is non-empty, never beside a
    latest card; the evolution chart iff some analysis is displayable, and
    its "unavailable" card iff the list is non-empty and none is.
   */
  lemma LayoutSpec(current: Option<Record>, all: seq<Record>)
    ensures var c := Layout(current, all);
      (c.latest.Charts? <==> current.Some? && ValidAnalysis(current.value))
      && (c.latest.ChartUnavailable? <==> current.Some? && !ValidAnalysis(current.value))
      && (c.latest.Charts? ==> c.latest.recommendations == Has(current.value, "recommendations"))
      && (c.problem <==> current.None? && all != [])
      && !(c.problem && !c.latest.NoLatest?)
      && (c.evolution.EvolutionChart? <==> exists i :: 0 <= i < |all| && ValidAnalysis(all[i]))
      && (c.evolution.EvolutionUnavailable? <==> all != [] && forall i :: 0 <= i < |all| ==> !ValidAnalysis(all[i]))
      && (c.evolution.NoEvolution? <==> all == [])
  {
  }

  /** A current analysis that is one of the listed analyses and displayable means there is history. */
  lemma CurrentGivesHistory(current: Option<Record>, all: seq<Record>)
    requires HasValidCurrentAnalysis(current) && current.value in all
    ensures HasHistoryForEvolution(all)
    ensures Layout(current, all).evolution.EvolutionChart?
  {
    var i :| 0 <= i < |all| && all[i] == current.value;
    assert ValidAnalysis(all[i]);
  }

  /** The id the screen can show: a truthy id is a string, as every stored id is. */
  predicate IdShowable(current: Option<Record>) {
    current.Some? && Has(current.value, "id") ==> current.value["id"].JStr?
  }

  /** `currentAnalysis?.id ? currentAnalysis.id.substring(0, 8) : 'N/A'` */
  function ShownId(current: Option<Record>): (t: string)
    requires IdShowable(current)
  {
    if current.Some? && Has(current.value, "id") then Text.Take(current.value["id"].s, 8) else "N/A"
  }

  /** The shown id is the first eight characters of a present id, and 'N/A' otherwise. */
  lemma ShownIdSpec(current: Option<Record>)
    requires IdShowable(current)
    ensures current.None? || !Has(current.value, "id") ==> ShownId(current) == "N/A"
    ensures current.Some? && Has(current.value, "id") ==>
      var id := current.value["id"].s;
      ShownId(current) <= id && |ShownId(current)| == (if |id| < 8 then |id| else 8) && ShownId(current) != ""
  {
  }
}
