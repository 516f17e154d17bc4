/**
  The dashboard's state (`useDashboardLogic`): the therapist's patient list,
  its search-filtered view, the headline counters and the error banner, with
  loading, searching and the optimistic delete that rolls back on failure.
 */
module Dashboard {
  import opened Values
  import opened Backend
  import Text
  import Seqs
  import PatientService

  /** The counters shown above the list (`recentlyAdded` depends on the clock and is not modelled). */
  datatype Stats = Stats(total: nat, withAnalysis: nat)

  const ZeroStats := Stats(0, 0)

  const NoSession := "Sessão do usuário não encontrada. Por favor, faça login novamente."
  const FetchFailed := "Falha ao buscar pacientes."

  predicate HasAnalysis(p: Record) {
    Truthy(Prop(p, "has_analysis"))
  }

  /** `{ total, withAnalysis }` of a fetched list. */
  function StatsOf(patients: seq<Record>): Stats {
    Stats(|patients|, |Seqs.Filter(patients, HasAnalysis)|)
  }

  /**
    `withAnalysis` never exceeds `total`; it equals `total` exactly when every
    patient has `has_analysis` truthy and is zero exactly when none has.
   */
  lemma StatsBounds(patients: seq<Record>)
    ensures StatsOf(patients).total == |patients|
    ensures StatsOf(patients).withAnalysis <= StatsOf(patients).total
    ensures StatsOf(patients).withAnalysis == StatsOf(patients).total
      <==> forall i :: 0 <= i < |patients| ==> HasAnalysis(patients[i])
    ensures StatsOf(patients).withAnalysis == 0
      <==> forall i :: 0 <= i < |patients| ==> !HasAnalysis(patients[i])
  {
    Seqs.FilterAll(patients, HasAnalysis);
    Seqs.FilterNone(patients, HasAnalysis);
  }

  /** The counters of the empty list are the reset counters. */
  lemma StatsOfEmpty()
    ensures StatsOf([]) == ZeroStats
  {
  }

  /** `p.k?.toLowerCase().includes(term)`: only a string property can match, an empty one included. */
  predicate FieldContains(p: Record, k: string, term: string) {
    match StrProp(p, k)
    case Some(s) => Text.Contains(Text.Lower(s), term)
    case None => false
  }

  /** A patient the search term selects: by name, e-mail or therapist name. */
  predicate SearchHit(p: Record, term: string) {
    var t := Text.Lower(term);
    FieldContains(p, "full_name", t) || FieldContains(p, "email", t) || FieldContains(p, "therapistName", t)
  }

  /** The filter effect: the patients the term selects, in list order. */
  function FilterPatients(patients: seq<Record>, term: string): seq<Record> {
    Seqs.Filter(patients, p => SearchHit(p, term))
  }

  /**
    The filtered list keeps the original order, holds only patients whose
    name, e-mail or therapist name contains the lower-cased term, and keeps
    every such patient.
   */
  lemma FilterPatientsSpec(patients: seq<Record>, term: string)
    ensures Seqs.IsSubsequence(FilterPatients(patients, term), patients)
    ensures forall p :: p in FilterPatients(patients, term) <==> p in patients && SearchHit(p, term)
  {
    Seqs.FilterIsSubsequence(patients, p => SearchHit(p, term));
    Seqs.FilterMembers(patients, p => SearchHit(p, term));
  }

  /** Every string contains the empty string. */
  lemma ContainsEmpty(s: string)
    ensures Text.Contains(s, "")
  {
  }

  /** A patient that has at least one of the three searched properties as a string. */
  predicate Searchable(p: Record) {
    StrProp(p, "full_name").Some? || StrProp(p, "email").Some? || StrProp(p, "therapistName").Some?
  }

  /** The empty term keeps exactly the patients with a string name, e-mail or therapist name. */
  lemma EmptySearch(patients: seq<Record>)
    ensures forall p :: p in FilterPatients(patients, "") <==> p in patients && Searchable(p)
  {
    FilterPatientsSpec(patients, "");
    forall p | p in patients
      ensures SearchHit(p, "") <==> Searchable(p)
    {
      assert Text.Lower("") == "";
      if StrProp(p, "full_name").Some? {
        ContainsEmpty(Text.Lower(StrProp(p, "full_name").value));
      }
      if StrProp(p, "email").Some? {
        ContainsEmpty(Text.Lower(StrProp(p, "email").value));
      }
      if StrProp(p, "therapistName").Some? {
        ContainsEmpty(Text.Lower(StrProp(p, "therapistName").value));
      }
    }
  }

  /** `p.id === id`, where `None` is `undefined` (which an absent property equals). */
  predicate HasId(p: Record, id: Option<Json>) {
    Get(p, "id") == id
  }

  /** The id as the service receives it: `undefined` is falsy like `null`. */
  function IdArg(id: Option<Json>): Json {
    if id.Some? then id.value else JNull
  }

  /** `patients.find(p => p.id === id)` finds something. */
  predicate Listed(patients: seq<Record>, id: Option<Json>) {
    exists i :: 0 <= i < |patients| && HasId(patients[i], id)
  }

  /** The optimistic removal: `patients.filter(p => p.id !== id)`. */
  function Removed(patients: seq<Record>, id: Option<Json>): seq<Record> {
    Seqs.Filter(patients, p => !HasId(p, id))
  }

  /**
    The optimistic removal drops exactly the patients with that id: none is
    left, every other patient stays, in the same order, and an id that is not
    listed changes nothing.
   */
  lemma RemovedSpec(patients: seq<Record>, id: Option<Json>)
    ensures !Listed(Removed(patients, id), id)
    ensures forall p :: p in patients && !HasId(p, id) ==> p in Removed(patients, id)
    ensures Seqs.IsSubsequence(Removed(patients, id), patients)
    ensures !Listed(patients, id) ==> Removed(patients, id) == patients
  {
    Seqs.FilterMembers(patients, p => !HasId(p, id));
    Seqs.FilterIsSubsequence(patients, p => !HasId(p, id));
    if !Listed(patients, id) {
      Seqs.FilterAll(patients, p => !HasId(p, id));
    }
  }

  /** The state the hook exposes. */
  datatype View = View(
    allPatients: seq<Record>,
    filteredPatients: seq<Record>,
    isLoading: bool,
    error: Option<string>,
    searchTerm: string,
    stats: Stats)

  /** The counters describe the full list. */
  predicate StatsAgree(v: View) {
    v.stats == StatsOf(v.allPatients)
  }

  /** The visible list is the search over the full list. */
  predicate Settled(v: View) {
    v.filteredPatients == FilterPatients(v.allPatients, v.searchTerm)
  }

  /** The message a failed fetch shows: its own message, or a fixed one when that is empty. */
  function ErrorText(e: Error): (t: string)
    ensures t != ""
  {
    if e.message != "" then e.message else FetchFailed
  }

  /** The filter `getAllPatients` selects the user's rows by. */
  function OwnPatients(uid: string): Filter {
    [("user_id", JStr(uid))]
  }

  /** The requests `loadData` sends: one listing, only when there is a session. */
  function LoadRequests(session: Json, user: Option<string>): seq<Request> {
    if Truthy(session) && user.Some? then [Request(GET, Patients, OwnPatients(user.value))] else []
  }

  /** What `getAllPatients` answers for the store in this state: the list, or an error and []. */
  function FetchAnswer(tables: map<Table, seq<Record>>, calls: seq<Request>, failures: map<nat, Error>, user: Option<string>)
    : (seq<Record>, Option<Error>)
  {
    if user.None? then ([], Some(PatientService.NotAuthenticatedToList))
    else if |calls| in failures then ([], Some(failures[|calls|]))
    else (PatientService.PatientsView(Selected(RowsIn(tables, Patients), OwnPatients(user.value), Desc("created_at")),
                                      RowsIn(tables, Therapists)), None)
  }

  /**
    `loadData`: without a session user id, the error banner, an empty list
    and zero counters; a failed fetch the same with the fetch's message;
    otherwise the fetched list as both the full and the visible list, with
    its counters and no error. Loading is over in every case.
   */
  function Loaded(v: View, session: Json, answer: (seq<Record>, Option<Error>)): View {
    if !Truthy(session) then
      v.(error := Some(NoSession), isLoading := false, allPatients := [], stats := ZeroStats)
    else if answer.1.Some? then
      v.(error := Some(ErrorText(answer.1.value)), isLoading := false, allPatients := [], stats := ZeroStats)
    else
      v.(error := None, isLoading := false, allPatients := answer.0, filteredPatients := answer.0, stats := StatsOf(answer.0))
  }

  /**
    Every load leaves the counters describing the list and the search term
    untouched; the error banner is up exactly when there was no session or
    the fetch failed, and then the list is empty.
   */
  lemma LoadedSpec(v: View, session: Json, answer: (seq<Record>, Option<Error>))
    ensures var r := Loaded(v, session, answer);
      StatsAgree(r) && !r.isLoading && r.searchTerm == v.searchTerm
      && (r.error.None? <==> Truthy(session) && answer.1.None?)
      && (r.error.Some? ==> r.allPatients == [] && r.stats == ZeroStats)
      && (!Truthy(session) ==> r.error == Some(NoSession))
  {
    StatsOfEmpty();
  }

  /**
    A successful load copies the fetched list into both the full and the
    visible list, whatever the search term; the filter effect narrows the
    visible list afterwards.
   */
  lemma LoadCopiesList(v: View, session: Json, answer: (seq<Record>, Option<Error>))
    requires Truthy(session) && answer.1.None?
    ensures Loaded(v, session, answer).filteredPatients == answer.0
    ensures Loaded(v, session, answer).allPatients == answer.0
  {
  }

  /** The rows a listing selects for `uid` hold no row with `pid` once none matches `OwnRow(pid, uid)`. */
  lemma OwnRowsLackId(rows: seq<Record>, pid: Json, uid: string)
    requires Truthy(pid)
    requires Where(rows, PatientService.OwnRow(pid, uid)) == []
    ensures forall row :: row in Where(rows, OwnPatients(uid)) ==> !HasId(row, Some(pid))
  {
    Seqs.FilterMembers(rows, row => Matches(row, OwnPatients(uid)));
    Seqs.FilterMembers(rows, row => Matches(row, PatientService.OwnRow(pid, uid)));
    forall row | row in Where(rows, OwnPatients(uid))
      ensures !HasId(row, Some(pid))
    {
      assert Matches(row, OwnPatients(uid));
      assert OwnPatients(uid)[0] == ("user_id", JStr(uid));
      assert row["user_id"] == JStr(uid);
      if HasId(row, Some(pid)) {
        var f := PatientService.OwnRow(pid, uid);
        assert f[0] == ("id", pid) && f[1] == ("user_id", JStr(uid));
        assert Matches(row, f);
        assert false;
      }
    }
  }

  /** Adding `therapistName` keeps each patient's id. */
  lemma ViewKeepsIds(rows: seq<Record>, therapists: seq<Record>, pid: Json)
    requires forall i :: 0 <= i < |rows| ==> !HasId(rows[i], Some(pid))
    ensures !Listed(PatientService.PatientsView(rows, therapists), Some(pid))
  {
    PatientService.PatientsViewSpec(rows, therapists);
  }

  /**
    After the cascade for `pid` succeeded, a listing of the user's patients
    holds no patient with that id.
   */
  lemma DeletedPatientGone(tables: map<Table, seq<Record>>, calls: seq<Request>, failures: map<nat, Error>, uid: string, pid: Json)
    requires Truthy(pid)
    ensures var after := PatientService.ApplyDeletes(tables, PatientService.CascadeSteps(pid, uid));
      !Listed(FetchAnswer(after, calls, failures, Some(uid)).0, Some(pid))
  {
    var after := PatientService.ApplyDeletes(tables, PatientService.CascadeSteps(pid, uid));
    var rows := RowsIn(after, Patients);
    PatientService.CascadeComplete(tables, pid, uid);
    OwnRowsLackId(rows, pid, uid);
    var sorted := Selected(rows, OwnPatients(uid), Desc("created_at"));
    forall i | 0 <= i < |sorted|
      ensures !HasId(sorted[i], Some(pid))
    {
      assert sorted[i] in multiset(Where(rows, OwnPatients(uid)));
    }
    ViewKeepsIds(sorted, RowsIn(after, Therapists), pid);
  }

  /** The dashboard hook's state, updated in place by its handlers. */
  /**
    What `handleDeletePatient` leaves behind, from the state, tables and
    request log before it to those after it. An id that is not listed
    changes nothing and sends nothing. Otherwise the cascade for the id runs;
    if it fails the state is the snapshot taken before the optimistic
    removal; if it succeeds the list, without the patients with that id, is
    loaded again.
   */
  predicate DeleteEffect(before: View, tables: map<Table, seq<Record>>, calls: seq<Request>, failures: map<nat, Error>,
                         session: Json, user: Option<string>, pid: Option<Json>,
                         after: View, tables': map<Table, seq<Record>>, calls': seq<Request>)
  {
    if !Listed(before.allPatients, pid) then
      after == before && tables' == tables && calls' == calls
    else
      var outcome := PatientService.DeleteOutcome(tables, calls, failures, user, IdArg(pid));
      tables' == outcome.0
      && (outcome.2.Some? ==> after == before && calls' == outcome.1)
      && (outcome.2.None? ==>
            calls' == outcome.1 + LoadRequests(session, user)
            && after == Loaded(before.(allPatients := Removed(before.allPatients, pid)), session,
                               FetchAnswer(outcome.0, outcome.1, failures, user)))
  }

  class Dashboard {
    var allPatients: seq<Record>
    var filteredPatients: seq<Record>
    var isLoading: bool
    var error: Option<string>
    var searchTerm: string
    var stats: Stats

    function State(): View
      reads this
    {
      View(allPatients, filteredPatients, isLoading, error, searchTerm, stats)
    }

    /** The hook's initial state: loading, nothing listed, no term. */
    constructor ()
      ensures State() == View([], [], true, None, "", ZeroStats)
      ensures StatsAgree(State()) && Settled(State())
    {
      allPatients := [];
      filteredPatients := [];
      isLoading := true;
      error := None;
      searchTerm := "";
      stats := ZeroStats;
    }

    /** The filter effect, run whenever the term or the full list changes. */
    method RefreshFilter()
      modifies this
      ensures State() == old(State()).(filteredPatients := FilterPatients(allPatients, searchTerm))
      ensures Settled(State())
    {
      filteredPatients := FilterPatients(allPatients, searchTerm);
    }

    /** `setSearchTerm`, followed by the filter effect it triggers. */
    method SetSearchTerm(term: string)
      modifies this
      ensures State() == old(State()).(searchTerm := term, filteredPatients := FilterPatients(allPatients, term))
      ensures Settled(State())
    {
      searchTerm := term;
      RefreshFilter();
    }

    /** `loadData`, with `session` the session's user id and `user` the signed-in user the service sees. */
    method LoadData(db: Store, session: Json, user: Option<string>)
      modifies this, db
      ensures db.tables == old(db.tables)
      ensures db.calls == old(db.calls) + LoadRequests(session, user)
      ensures State() == Loaded(old(State()), session, FetchAnswer(old(db.tables), old(db.calls), db.failures, user))
    {
      if !Truthy(session) {
        error := Some(NoSession);
        isLoading := false;
        allPatients := [];
        stats := ZeroStats;
        return;
      }
      isLoading := true;
      error := None;
      ghost var answer := FetchAnswer(db.tables, db.calls, db.failures, user);
      var data, err := PatientService.GetAllPatients(db, user);
      assert (data, err) == answer;
      if err.Some? {
        error := Some(ErrorText(err.value));
        allPatients := [];
        stats := ZeroStats;
      } else {
        allPatients := data;
        filteredPatients := data;
        stats := StatsOf(data);
      }
      isLoading := false;
    }

    /**
      `handleDeletePatient`: the patients with the id leave the list before
      the cascade runs, and the list is restored from the snapshot if it fails.
     */
    method DeletePatient(db: Store, session: Json, user: Option<string>, pid: Option<Json>)
      modifies this, db
      ensures DeleteEffect(old(State()), old(db.tables), old(db.calls), db.failures, session, user, pid,
                           State(), db.tables, db.calls)
    {
      if !Listed(allPatients, pid) {
        return;
      }
      var original := allPatients;
      allPatients := Removed(allPatients, pid);
      var success, err := PatientService.DeletePatientById(db, user, IdArg(pid));
      if !success {
        allPatients := original;
        return;
      }
      LoadData(db, session, user);
    }
  }
}
