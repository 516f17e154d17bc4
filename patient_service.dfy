/**
  Patient persistence (`src/lib/services/patientService.js`): saving a
  patient (insert or owner-scoped update), reading patients with their
  therapist's name, the cascade that deletes a patient and everything
  recorded about it, the `has_analysis` flag and the advance to a new
  therapy phase.

  `user` is the id of the signed-in user, `None` when there is none; `now` is
  the moment of the call, the value of every `new Date().toISOString()` in it.
 */
module PatientService {
  import opened Values
  import opened Backend
  import Text
  import Seqs

  /** The `{ success, data, error }` objects the patient functions return. */
  datatype Status = Status(success: bool, data: Option<Record>, error: Option<Error>)

  const NotAuthenticated := Error(None, "Usuário não autenticado.")
  const NotAuthenticatedToList := Error(None, "Usuário não autenticado para buscar pacientes.")
  const NotAuthenticatedToFetch := Error(None, "Usuário não autenticado para buscar paciente.")
  const NotAuthenticatedToDelete := Error(None, "Usuário não autenticado para excluir paciente.")
  const NotAuthenticatedToFlag := Error(None, "Usuário não autenticado para atualizar status.")
  const MissingIdToFetch := Error(None, "ID do paciente não fornecido.")
  const MissingIdToDelete := Error(None, "ID do paciente é obrigatório para exclusão.")
  const NotFoundOrDenied := Error(None, "Paciente não encontrado ou acesso negado.")

  /** The columns whose empty string is stored as null. */
  predicate NullWhenEmpty(key: string) {
    key == "birth_date" || key == "therapist_id"
  }

  /** `{ ...patientData, user_id, updated_at }` */
  function PatientRecord(data: Record, uid: string, now: int): Record {
    data["user_id" := JStr(uid)]["updated_at" := JNum(now)]
  }

  /**
    The record after the clean-up pass: an empty `birth_date` or
    `therapist_id` becomes null, and so does a `therapist_id` that is absent;
    every other property, empty strings included, is kept.
   */
  function Normalized(rec: Record): (r: Record)
    ensures r.Keys == rec.Keys + {"therapist_id"}
    ensures forall k :: k in rec && !(NullWhenEmpty(k) && rec[k] == JStr("")) ==> r[k] == rec[k]
    ensures forall k :: k in rec && NullWhenEmpty(k) && rec[k] == JStr("") ==> r[k] == JNull
    ensures "therapist_id" !in rec ==> r["therapist_id"] == JNull
  {
    var cleaned := map k | k in rec :: if NullWhenEmpty(k) && rec[k] == JStr("") then JNull else rec[k];
    if "therapist_id" in cleaned then cleaned else cleaned["therapist_id" := JNull]
  }

  /** The `forEach` over the record's keys, then the `therapist_id` default. */
  method NormalizeRecord(rec: Record) returns (out: Record)
    ensures out == Normalized(rec)
  {
    out := rec;
    var pending := rec.Keys;
    while pending != {}
      invariant pending <= rec.Keys && out.Keys == rec.Keys
      invariant forall k :: k in pending ==> out[k] == rec[k]
      invariant forall k :: k in rec && k !in pending ==>
        out[k] == if NullWhenEmpty(k) && rec[k] == JStr("") then JNull else rec[k]
      decreases pending
    {
      var key :| key in pending;
      if out[key] == JStr("") {
        if key == "birth_date" || key == "therapist_id" {
          out := out[key := JNull];
        }
      }
      pending := pending - {key};
    }
    if "therapist_id" !in out || out["therapist_id"] == JStr("") {
      out := out["therapist_id" := JNull];
    }
  }

  /** The row `savePatientToSupabase` writes: the cleaned record, plus `created_at` on insert. */
  function SavedRecord(data: Record, uid: string, now: int): Record {
    var rec := Normalized(PatientRecord(data, uid, now));
    if Has(data, "id") then rec else rec["created_at" := JNum(now)]
  }

  /** The filter of the user's own row with this id. */
  function OwnRow(id: Json, uid: string): Filter {
    [("id", id), ("user_id", JStr(uid))]
  }

  /**
    `savePatientToSupabase`: without an id the cleaned record is inserted with
    `created_at`; with one it replaces the columns of the user's own row with
    that id, and fails unless exactly one such row exists.
   */
  method SavePatient(db: Store, user: Option<string>, now: int, data: Record) returns (r: Status)
    modifies db
    ensures user.None? ==>
      r == Status(false, None, Some(NotAuthenticated)) && db.calls == old(db.calls) && db.tables == old(db.tables)
    ensures user.Some? && !Has(data, "id") ==>
      var row := Stamped(SavedRecord(data, user.value, now), NewId(|old(db.calls)|), now);
      db.calls == old(db.calls) + [Request(POST, Patients, [])]
      && r.error == db.FailureAt(|old(db.calls)|) && r.success == r.error.None?
      && (r.success ==> r.data == Some(row) && db.tables == old(db.tables)[Patients := old(db.Rows(Patients)) + [row]])
      && (!r.success ==> r.data.None? && db.tables == old(db.tables))
    ensures user.Some? && Has(data, "id") ==>
      var f := OwnRow(data["id"], user.value);
      var found := Where(old(db.Rows(Patients)), f);
      var failed := db.FailureAt(|old(db.calls)|);
      db.calls == old(db.calls) + [Request(PATCH, Patients, f)]
      && r.success == (failed.None? && |found| == 1)
      && (r.success ==>
            r.error.None? && r.data == Some(found[0] + SavedRecord(data, user.value, now))
            && db.tables == old(db.tables)[Patients := Patched(old(db.Rows(Patients)), f, SavedRecord(data, user.value, now))])
      && (!r.success ==>
            r.data.None? && r.error == (if failed.Some? then failed else Some(NotSingle)) && db.tables == old(db.tables))
  {
    if user.None? {
      return Status(false, None, Some(NotAuthenticated));
    }
    var rec := NormalizeRecord(PatientRecord(data, user.value, now));
    if !Has(data, "id") {
      rec := rec["created_at" := JNum(now)];
      var row, err := db.Insert(Patients, rec, now);
      if err.Some? {
        return Status(false, None, err);
      }
      return Status(true, row, None);
    } else {
      var row, err := db.UpdateSingle(Patients, OwnRow(data["id"], user.value), rec);
      if err.Some? {
        return Status(false, None, err);
      }
      return Status(true, row, None);
    }
  }

  /** `therapistName`: the embedded therapist's `name`, or null when there is no therapist. */
  function TherapistName(row: Record): (v: Json)
    ensures Prop(row, "therapists").JObj? ==> v == Prop(Prop(row, "therapists").fields, "name")
    ensures !Truthy(Prop(row, "therapists")) ==> v == JNull
  {
    match Prop(row, "therapists")
    case JObj(m) => Prop(m, "name")
    case _ => JNull
  }

  /** `{ ...patient, therapistName }` */
  function WithTherapistName(row: Record): (r: Record)
    ensures r.Keys == row.Keys + {"therapistName"}
    ensures forall k :: k in row && k != "therapistName" ==> r[k] == row[k]
  {
    row["therapistName" := TherapistName(row)]
  }

  /** The select with the embedded `therapists(name)`, then the `therapistName` of each row. */
  function PatientsView(rows: seq<Record>, therapists: seq<Record>): (r: seq<Record>)
    ensures |r| == |rows|
  {
    var joined := Embedded(rows, "therapist_id", therapists, "therapists", "name");
    seq(|joined|, i requires 0 <= i < |joined| => WithTherapistName(joined[i]))
  }

  /** The enriched list keeps each patient's own columns and adds its therapist's name, in the same order. */
  lemma PatientsViewSpec(rows: seq<Record>, therapists: seq<Record>)
    ensures forall i :: 0 <= i < |rows| ==>
      var p := PatientsView(rows, therapists)[i];
      (forall k :: k in rows[i] && k != "therapists" && k != "therapistName" ==> k in p && p[k] == rows[i][k])
      && p["therapistName"] == (var t := Lookup(Prop(rows[i], "therapist_id"), therapists, "name");
                                if t.JObj? then Prop(t.fields, "name") else JNull)
      && (p["therapistName"] != JNull ==> Prop(rows[i], "therapist_id") != JNull)
  {
  }

  /** `getAllPatients`: the user's patients, newest `created_at` first, each with `therapistName`. */
  method GetAllPatients(db: Store, user: Option<string>) returns (data: seq<Record>, error: Option<Error>)
    modifies db
    ensures db.tables == old(db.tables)
    ensures user.None? ==> data == [] && error == Some(NotAuthenticatedToList) && db.calls == old(db.calls)
    ensures user.Some? ==>
      var f := [("user_id", JStr(user.value))];
      db.calls == old(db.calls) + [Request(GET, Patients, f)]
      && error == db.FailureAt(|old(db.calls)|)
      && data == if error.Some? then [] else PatientsView(Selected(db.Rows(Patients), f, Desc("created_at")), db.Rows(Therapists))
  {
    if user.None? {
      return [], Some(NotAuthenticatedToList);
    }
    var rows, err := db.Query(Patients, [("user_id", JStr(user.value))], Desc("created_at"));
    if err.Some? {
      return [], err;
    }
    return PatientsView(rows, db.Rows(Therapists)), None;
  }

  /**
    `getPatientById`: a missing id is refused before anything else; otherwise
    the user's own row with that id, and a "not found or denied" error when
    there is no such single row.
   */
  method GetPatientById(db: Store, user: Option<string>, id: Json) returns (r: Status)
    modifies db
    ensures db.tables == old(db.tables)
    ensures !Truthy(id) ==> r == Status(false, None, Some(MissingIdToFetch)) && db.calls == old(db.calls)
    ensures Truthy(id) && user.None? ==>
      r == Status(false, None, Some(NotAuthenticatedToFetch)) && db.calls == old(db.calls)
    ensures Truthy(id) && user.Some? ==>
      var f := OwnRow(id, user.value);
      var found := Where(db.Rows(Patients), f);
      var failed := db.FailureAt(|old(db.calls)|);
      db.calls == old(db.calls) + [Request(GET, Patients, f)]
      && r.success == (failed.None? && |found| == 1)
      && (r.success ==> r.error.None? && r.data == Some(PatientsView([found[0]], db.Rows(Therapists))[0]))
      && (failed.Some? ==>
            r.data.None? && r.error == if failed.value.code == Some("PGRST116") then Some(NotFoundOrDenied) else failed)
      && (failed.None? && |found| != 1 ==> r == Status(false, None, Some(NotFoundOrDenied)))
  {
    if !Truthy(id) {
      return Status(false, None, Some(MissingIdToFetch));
    }
    if user.None? {
      return Status(false, None, Some(NotAuthenticatedToFetch));
    }
    var row, err := db.QuerySingle(Patients, OwnRow(id, user.value));
    if err.Some? {
      if err.value.code == Some("PGRST116") {
        return Status(false, None, Some(NotFoundOrDenied));
      }
      return Status(false, None, err);
    }
    return Status(true, Some(PatientsView([row.value], db.Rows(Therapists))[0]), None);
  }

  /** The four deletes of the cascade, in order: events, evaluations, analyses, then the user's patient row. */
  function CascadeSteps(pid: Json, uid: string): (steps: seq<(Table, Filter)>)
    ensures |steps| == 4
  {
    [ (JourneyEvents, [("patient_id", pid)]),
      (TechniqueEvaluations, [("patient_id", pid)]),
      (QuantumAnalyses, [("patient_id", pid)]),
      (Patients, OwnRow(pid, uid)) ]
  }

  /** The prefix of each step's error message. */
  function CascadeMessage(step: nat): string
    requires step < 4
  {
    ["Falha ao excluir eventos da jornada: ", "Falha ao excluir avaliações de técnicas: ",
     "Falha ao excluir análises: ", "Falha ao excluir paciente: "][step]
  }

  /** The error of a failed cascade step: the step's prefix, then the database's message. */
  function CascadeError(step: nat, e: Error): Error
    requires step < 4
  {
    Error(None, CascadeMessage(step) + e.message)
  }

  /**
    The cascade from step `i` on, given the call log so far and the oracle:
    the tables it leaves, the call log after it and the error it reports. A
    failing step ends it.
   */
  function CascadeRun(tables: map<Table, seq<Record>>, calls: seq<Request>, failures: map<nat, Error>, steps: seq<(Table, Filter)>, i: nat)
    : (map<Table, seq<Record>>, seq<Request>, Option<Error>)
    requires i <= |steps| <= 4
    decreases |steps| - i
  {
    if i == |steps| then (tables, calls, None)
    else
      var sent := calls + [Request(DELETE, steps[i].0, steps[i].1)];
      if |calls| in failures then (tables, sent, Some(CascadeError(i, failures[|calls|])))
      else CascadeRun(tables[steps[i].0 := Without(RowsIn(tables, steps[i].0), steps[i].1)], sent, failures, steps, i + 1)
  }

  /** The tables after the given deletes, applied in order. */
  function ApplyDeletes(tables: map<Table, seq<Record>>, steps: seq<(Table, Filter)>): map<Table, seq<Record>>
    decreases |steps|
  {
    if steps == [] then tables
    else ApplyDeletes(tables[steps[0].0 := Without(RowsIn(tables, steps[0].0), steps[0].1)], steps[1..])
  }

  /** The delete request of each step, in order. */
  function DeleteRequests(steps: seq<(Table, Filter)>): (r: seq<Request>)
    ensures |r| == |steps|
  {
    seq(|steps|, j requires 0 <= j < |steps| => Request(DELETE, steps[j].0, steps[j].1))
  }

  /**
    The first `n` steps from step `i` succeed and the next one, if there is
    one, fails.
   */
  predicate FailsAfter(calls: seq<Request>, failures: map<nat, Error>, steps: seq<(Table, Filter)>, i: nat, n: nat) {
    i + n <= |steps|
    && (forall j :: |calls| <= j < |calls| + n ==> j !in failures)
    && (i + n == |steps| || |calls| + n in failures)
  }

  /** A cascade whose first `n` steps succeed leaves the tables as those `n` deletes, in order, leave them. */
  lemma {:induction false} CascadeRunTables(tables: map<Table, seq<Record>>, calls: seq<Request>, failures: map<nat, Error>, steps: seq<(Table, Filter)>, i: nat, n: nat)
    requires |steps| <= 4 && FailsAfter(calls, failures, steps, i, n)
    ensures CascadeRun(tables, calls, failures, steps, i).0 == ApplyDeletes(tables, steps[i..i + n])
    decreases n
  {
    if n == 0 {
      assert steps[i..i] == [];
    } else {
      assert |calls| !in failures;
      var next := tables[steps[i].0 := Without(RowsIn(tables, steps[i].0), steps[i].1)];
      CascadeRunTables(next, calls + [Request(DELETE, steps[i].0, steps[i].1)], failures, steps, i + 1, n - 1);
      assert steps[i..i + n][1..] == steps[i + 1..i + n];
    }
  }

  /** Once step `i` succeeds, the steps from `i + 1` on fail after `n - 1` further successes. */
  lemma FailsAfterNext(calls: seq<Request>, failures: map<nat, Error>, steps: seq<(Table, Filter)>, i: nat, n: nat, r: Request)
    requires n > 0 && FailsAfter(calls, failures, steps, i, n)
    ensures |calls| !in failures
    ensures FailsAfter(calls + [r], failures, steps, i + 1, n - 1)
  {
  }

  /** A cascade whose first `n` steps succeed logs those `n` deletes and then the failing one, if any. */
  lemma {:induction false} CascadeRunLog(tables: map<Table, seq<Record>>, calls: seq<Request>, failures: map<nat, Error>, steps: seq<(Table, Filter)>, i: nat, n: nat)
    requires |steps| <= 4 && FailsAfter(calls, failures, steps, i, n)
    ensures var reached := if i + n < |steps| then n + 1 else n;
      CascadeRun(tables, calls, failures, steps, i).1 == calls + DeleteRequests(steps)[i..i + reached]
    decreases n
  {
    var all := DeleteRequests(steps);
    if n == 0 {
      CascadeRunLogStop(tables, calls, failures, steps, i);
    } else {
      var sent := calls + [all[i]];
      var next := tables[steps[i].0 := Without(RowsIn(tables, steps[i].0), steps[i].1)];
      CascadeRunLogStep(tables, calls, failures, steps, i);
      FailsAfterNext(calls, failures, steps, i, n, all[i]);
      CascadeRunLog(next, sent, failures, steps, i + 1, n - 1);
      var e := if i + n < |steps| then i + n + 1 else i + n;
      assert CascadeRun(next, sent, failures, steps, i + 1).1 == sent + all[i + 1..e];
      Seqs.AppendSliceCons(calls, all, i, e);
    }
  }

  /** A successful step logs its delete and goes on with the next step. */
  lemma CascadeRunLogStep(tables: map<Table, seq<Record>>, calls: seq<Request>, failures: map<nat, Error>, steps: seq<(Table, Filter)>, i: nat)
    requires i < |steps| <= 4 && |calls| !in failures
    ensures CascadeRun(tables, calls, failures, steps, i).1
      == CascadeRun(tables[steps[i].0 := Without(RowsIn(tables, steps[i].0), steps[i].1)],
                    calls + [DeleteRequests(steps)[i]], failures, steps, i + 1).1
  {
  }

  /** A cascade that stops at step `i` logs that step's request, or nothing when there is none. */
  lemma CascadeRunLogStop(tables: map<Table, seq<Record>>, calls: seq<Request>, failures: map<nat, Error>, steps: seq<(Table, Filter)>, i: nat)
    requires |steps| <= 4 && FailsAfter(calls, failures, steps, i, 0)
    ensures var reached := if i < |steps| then 1 else 0;
      CascadeRun(tables, calls, failures, steps, i).1 == calls + DeleteRequests(steps)[i..i + reached]
  {
    var all := DeleteRequests(steps);
    if i < |steps| {
      Seqs.SliceCons(all, i, i + 1);
      Seqs.AppendEmptySlice([all[i]], all, i + 1);
    } else {
      Seqs.AppendEmptySlice(calls, all, i);
    }
  }

  /** A cascade whose first `n` steps succeed reports the error of the step after them, or none when they were all. */
  lemma {:induction false} CascadeRunError(tables: map<Table, seq<Record>>, calls: seq<Request>, failures: map<nat, Error>, steps: seq<(Table, Filter)>, i: nat, n: nat)
    requires |steps| <= 4 && FailsAfter(calls, failures, steps, i, n)
    ensures CascadeRun(tables, calls, failures, steps, i).2
      == if i + n == |steps| then None else Some(CascadeError(i + n, failures[|calls| + n]))
    decreases n
  {
    if n > 0 {
      assert |calls| !in failures;
      CascadeRunError(tables[steps[i].0 := Without(RowsIn(tables, steps[i].0), steps[i].1)],
                      calls + [Request(DELETE, steps[i].0, steps[i].1)], failures, steps, i + 1, n - 1);
    }
  }

  /**
    What `deletePatientById` leaves, logs and reports: nothing at all
    without an id or a user, otherwise the cascade from its first step.
   */
  function DeleteOutcome(tables: map<Table, seq<Record>>, calls: seq<Request>, failures: map<nat, Error>, user: Option<string>, pid: Json)
    : (map<Table, seq<Record>>, seq<Request>, Option<Error>)
  {
    if !Truthy(pid) then (tables, calls, Some(MissingIdToDelete))
    else if user.None? then (tables, calls, Some(NotAuthenticatedToDelete))
    else CascadeRun(tables, calls, failures, CascadeSteps(pid, user.value), 0)
  }

  /**
    `deletePatientById`: a missing id or user touches nothing. Otherwise the
    four deletes run in order, each reporting its own error, and the first
    failure ends the cascade.
   */
  method DeletePatientById(db: Store, user: Option<string>, pid: Json) returns (success: bool, error: Option<Error>)
    modifies db
    ensures success == error.None?
    ensures (db.tables, db.calls, error) == DeleteOutcome(old(db.tables), old(db.calls), db.failures, user, pid)
  {
    if !Truthy(pid) {
      return false, Some(MissingIdToDelete);
    }
    if user.None? {
      return false, Some(NotAuthenticatedToDelete);
    }
    ghost var steps := CascadeSteps(pid, user.value);
    ghost var outcome := CascadeRun(db.tables, db.calls, db.failures, steps, 0);
    var err := db.Delete(JourneyEvents, [("patient_id", pid)]);
    if err.Some? {
      return false, Some(CascadeError(0, err.value));
    }
    assert outcome == CascadeRun(db.tables, db.calls, db.failures, steps, 1);
    err := db.Delete(TechniqueEvaluations, [("patient_id", pid)]);
    if err.Some? {
      return false, Some(CascadeError(1, err.value));
    }
    assert outcome == CascadeRun(db.tables, db.calls, db.failures, steps, 2);
    err := db.Delete(QuantumAnalyses, [("patient_id", pid)]);
    if err.Some? {
      return false, Some(CascadeError(2, err.value));
    }
    assert outcome == CascadeRun(db.tables, db.calls, db.failures, steps, 3);
    err := db.Delete(Patients, OwnRow(pid, user.value));
    if err.Some? {
      return false, Some(CascadeError(3, err.value));
    }
    assert outcome == CascadeRun(db.tables, db.calls, db.failures, steps, 4);
    return true, None;
  }

  /** One more delete at the end of the list is one more delete after the others. */
  lemma {:induction false} ApplyDeletesSnoc(tables: map<Table, seq<Record>>, steps: seq<(Table, Filter)>, last: (Table, Filter))
    ensures var before := ApplyDeletes(tables, steps);
      ApplyDeletes(tables, steps + [last]) == before[last.0 := Without(RowsIn(before, last.0), last.1)]
    decreases |steps|
  {
    if steps != [] {
      assert (steps + [last])[1..] == steps[1..] + [last];
      ApplyDeletesSnoc(tables[steps[0].0 := Without(RowsIn(tables, steps[0].0), steps[0].1)], steps[1..], last);
    }
  }

  /** A delete on one table leaves every other table as it was. */
  lemma {:induction false} ApplyDeletesOtherTables(tables: map<Table, seq<Record>>, steps: seq<(Table, Filter)>, t: Table)
    requires forall i :: 0 <= i < |steps| ==> steps[i].0 != t
    ensures RowsIn(ApplyDeletes(tables, steps), t) == RowsIn(tables, t)
    decreases |steps|
  {
    if steps != [] {
      ApplyDeletesOtherTables(tables[steps[0].0 := Without(RowsIn(tables, steps[0].0), steps[0].1)], steps[1..], t);
    }
  }

  /** Stopping after `n` deletes leaves the tables of the remaining steps untouched. */
  lemma CascadeStopsEarly(tables: map<Table, seq<Record>>, pid: Json, uid: string, n: nat)
    requires n <= 4
    ensures forall k :: n <= k < 4 ==>
      RowsIn(ApplyDeletes(tables, CascadeSteps(pid, uid)[..n]), CascadeSteps(pid, uid)[k].0)
      == RowsIn(tables, CascadeSteps(pid, uid)[k].0)
  {
    var steps := CascadeSteps(pid, uid);
    forall k | n <= k < 4
      ensures RowsIn(ApplyDeletes(tables, steps[..n]), steps[k].0) == RowsIn(tables, steps[k].0)
    {
      ApplyDeletesOtherTables(tables, steps[..n], steps[k].0);
    }
  }

  /** After the delete of step `k`, the later steps leave its table alone, so nothing of the filter remains. */
  lemma CascadeStepClears(tables: map<Table, seq<Record>>, steps: seq<(Table, Filter)>, k: nat)
    requires k < |steps|
    requires forall j :: k < j < |steps| ==> steps[j].0 != steps[k].0
    ensures Where(RowsIn(ApplyDeletes(tables, steps), steps[k].0), steps[k].1) == []
  {
    var t := steps[k].0;
    var before := ApplyDeletes(tables, steps[..k]);
    ApplyDeletesSnoc(tables, steps[..k], steps[k]);
    assert steps[..k + 1] == steps[..k] + [steps[k]];
    var mid := ApplyDeletes(tables, steps[..k + 1]);
    WithoutRemovesAll(RowsIn(before, t), steps[k].1);
    assert steps == steps[..k + 1] + steps[k + 1..];
    ApplyDeletesSplit(tables, steps[..k + 1], steps[k + 1..]);
    ApplyDeletesOtherTables(mid, steps[k + 1..], t);
  }

  /**
    A complete cascade leaves no journey event, evaluation or analysis of
    the patient (whoever owns them) and no row of the user's with that id.
   */
  lemma CascadeComplete(tables: map<Table, seq<Record>>, pid: Json, uid: string)
    ensures var after := ApplyDeletes(tables, CascadeSteps(pid, uid));
      Where(RowsIn(after, JourneyEvents), [("patient_id", pid)]) == []
      && Where(RowsIn(after, TechniqueEvaluations), [("patient_id", pid)]) == []
      && Where(RowsIn(after, QuantumAnalyses), [("patient_id", pid)]) == []
      && Where(RowsIn(after, Patients), OwnRow(pid, uid)) == []
  {
    var steps := CascadeSteps(pid, uid);
    CascadeStepClears(tables, steps, 0);
    CascadeStepClears(tables, steps, 1);
    CascadeStepClears(tables, steps, 2);
    CascadeStepClears(tables, steps, 3);
  }

  lemma {:induction false} ApplyDeletesSplit(tables: map<Table, seq<Record>>, a: seq<(Table, Filter)>, b: seq<(Table, Filter)>)
    ensures ApplyDeletes(tables, a + b) == ApplyDeletes(ApplyDeletes(tables, a), b)
    decreases |a|
  {
    if a != [] {
      assert (a + b)[1..] == a[1..] + b;
      ApplyDeletesSplit(tables[a[0].0 := Without(RowsIn(tables, a[0].0), a[0].1)], a[1..], b);
    } else {
      assert a + b == b;
    }
  }

  /** The columns the flag update sets. */
  function FlagPatch(hasAnalysis: bool, now: int): Record {
    map["has_analysis" := JBool(hasAnalysis), "updated_at" := JNum(now)]
  }

  /**
    `updatePatientHasAnalysisFlag`: the flag and `updated_at` of the user's
    own row with this id; the reply carries the row's `id` and `has_analysis`.
   */
  method UpdatePatientHasAnalysisFlag(db: Store, user: Option<string>, now: int, pid: Json, hasAnalysis: bool)
    returns (r: Status)
    modifies db
    ensures user.None? ==>
      r == Status(false, None, Some(NotAuthenticatedToFlag)) && db.calls == old(db.calls) && db.tables == old(db.tables)
    ensures user.Some? ==>
      var f := OwnRow(pid, user.value);
      var patch := FlagPatch(hasAnalysis, now);
      var found := Where(old(db.Rows(Patients)), f);
      var failed := db.FailureAt(|old(db.calls)|);
      db.calls == old(db.calls) + [Request(PATCH, Patients, f)]
      && r.success == (failed.None? && |found| == 1)
      && (r.success ==>
            r.error.None? && r.data == Some(Project(found[0] + patch, {"id", "has_analysis"}))
            && db.tables == old(db.tables)[Patients := Patched(old(db.Rows(Patients)), f, patch)])
      && (!r.success ==>
            r.data.None? && r.error == (if failed.Some? then failed else Some(NotSingle)) && db.tables == old(db.tables))
  {
    if user.None? {
      return Status(false, None, Some(NotAuthenticatedToFlag));
    }
    var patch := FlagPatch(hasAnalysis, now);
    var row, err := db.UpdateSingle(Patients, OwnRow(pid, user.value), patch);
    if err.Some? {
      return Status(false, None, err);
    }
    return Status(true, Some(Project(row.value, {"id", "has_analysis"})), None);
  }

  /** The columns the phase advance sets on the patient. */
  function PhasePatch(newPhaseNumber: int, now: int): Record {
    map["current_phase_number" := JNum(newPhaseNumber), "phase_start_date" := JNum(now)]
  }

  /** The `phase_start` event that opens the new phase. */
  function PhaseStartEvent(pid: Json, uid: string, newPhaseNumber: int, now: int): (e: Record)
    ensures e.Keys == {"patient_id", "user_id", "event_type", "event_data", "timestamp"}
    ensures e["event_type"] == JStr("phase_start") && e["timestamp"] == JNum(now) && e["patient_id"] == pid
    ensures e["event_data"] == JObj(map["description" := JStr("Início da Fase " + Text.IntToString(newPhaseNumber))])
  {
    map[
      "patient_id" := pid,
      "user_id" := JStr(uid),
      "event_type" := JStr("phase_start"),
      "event_data" := JObj(map["description" := JStr("Início da Fase " + Text.IntToString(newPhaseNumber))]),
      "timestamp" := JNum(now)
    ]
  }

  /**
    What `updatePatientCurrentPhase` leaves, logs, returns and reports, step
    by step, given the oracle: first the patient update, by id alone, which
    must hit exactly one row; its failure is the only one reported.
   */
  function PhaseOutcome(
    tables: map<Table, seq<Record>>, calls: seq<Request>, failures: map<nat, Error>,
    user: Option<string>, now: int, pid: Json, currentPhaseIdPk: Json, newPhaseNumber: int)
    : (map<Table, seq<Record>>, seq<Request>, Option<Record>, Option<Error>)
  {
    if user.None? then (tables, calls, None, Some(NotAuthenticated))
    else
      var f := [("id", pid)];
      var found := Where(RowsIn(tables, Patients), f);
      var sent := calls + [Request(PATCH, Patients, f)];
      if |calls| in failures then (tables, sent, None, Some(failures[|calls|]))
      else if |found| != 1 then (tables, sent, None, Some(NotSingle))
      else
        var patient := Project(found[0] + PhasePatch(newPhaseNumber, now), {"id", "current_phase_id_pk"});
        PhaseClose(tables[Patients := Patched(RowsIn(tables, Patients), f, PhasePatch(newPhaseNumber, now))], sent, failures,
                   user.value, now, pid, currentPhaseIdPk, newPhaseNumber, Prop(patient, "id"))
  }

  /** Then, when there is a previous event, its closing, whose failure only warns. */
  function PhaseClose(
    tables: map<Table, seq<Record>>, calls: seq<Request>, failures: map<nat, Error>,
    uid: string, now: int, pid: Json, currentPhaseIdPk: Json, newPhaseNumber: int, patientId: Json)
    : (map<Table, seq<Record>>, seq<Request>, Option<Record>, Option<Error>)
  {
    if !Truthy(currentPhaseIdPk) then PhaseStart(tables, calls, failures, uid, now, pid, newPhaseNumber, patientId)
    else
      var f := [("id", currentPhaseIdPk)];
      var closed := if |calls| in failures then tables
                    else tables[JourneyEvents := Patched(RowsIn(tables, JourneyEvents), f, map["phase_end_date" := JNum(now)])];
      PhaseStart(closed, calls + [Request(PATCH, JourneyEvents, f)], failures, uid, now, pid, newPhaseNumber, patientId)
  }

  /**
    Then the insert of the `phase_start` event, whose failure ends the call
    with the patient's id in the reply, and the patient's link to the new
    event, whose failure only warns.
   */
  function PhaseStart(
    tables: map<Table, seq<Record>>, calls: seq<Request>, failures: map<nat, Error>,
    uid: string, now: int, pid: Json, newPhaseNumber: int, patientId: Json)
    : (map<Table, seq<Record>>, seq<Request>, Option<Record>, Option<Error>)
  {
    var sent := calls + [Request(POST, JourneyEvents, [])];
    if |calls| in failures then (tables, sent, Some(map["id" := patientId, "phase_start_date" := JNum(now)]), None)
    else
      var event := Stamped(PhaseStartEvent(pid, uid, newPhaseNumber, now), NewId(|calls|), now);
      var added := tables[JourneyEvents := RowsIn(tables, JourneyEvents) + [event]];
      var f := [("id", pid)];
      var linked := if |sent| in failures then added
                    else added[Patients := Patched(RowsIn(added, Patients), f, map["current_phase_id_pk" := Prop(event, "id")])];
      (linked, sent + [Request(PATCH, Patients, f)], Some(map["id" := Prop(event, "id"), "phase_start_date" := JNum(now)]), None)
  }

  /** `updatePatientCurrentPhase`, step by step as its outcome function describes. */
  method UpdatePatientCurrentPhase(
    db: Store, user: Option<string>, now: int, pid: Json, currentPhaseIdPk: Json, newPhaseNumber: int)
    returns (data: Option<Record>, error: Option<Error>)
    modifies db
    ensures (db.tables, db.calls, data, error)
      == PhaseOutcome(old(db.tables), old(db.calls), db.failures, user, now, pid, currentPhaseIdPk, newPhaseNumber)
  {
    if user.None? {
      return None, Some(NotAuthenticated);
    }
    ghost var outcome := PhaseOutcome(db.tables, db.calls, db.failures, user, now, pid, currentPhaseIdPk, newPhaseNumber);
    var updated, updateErr := db.UpdateSingle(Patients, [("id", pid)], PhasePatch(newPhaseNumber, now));
    if updateErr.Some? {
      return None, updateErr;
    }
    var patientRow := Project(updated.value, {"id", "current_phase_id_pk"});
    assert outcome == PhaseClose(db.tables, db.calls, db.failures, user.value, now, pid, currentPhaseIdPk, newPhaseNumber,
                                 Prop(patientRow, "id"));
    if Truthy(currentPhaseIdPk) {
      var endErr := db.Update(JourneyEvents, [("id", currentPhaseIdPk)], map["phase_end_date" := JNum(now)]);
    }
    assert outcome == PhaseStart(db.tables, db.calls, db.failures, user.value, now, pid, newPhaseNumber, Prop(patientRow, "id"));
    data := StartPhase(db, user.value, now, pid, newPhaseNumber, Prop(patientRow, "id"));
    error := None;
  }

  /** The insert of the `phase_start` event and the patient's link to it. */
  method StartPhase(db: Store, uid: string, now: int, pid: Json, newPhaseNumber: int, patientId: Json)
    returns (data: Option<Record>)
    modifies db
    ensures (db.tables, db.calls, data, None)
      == PhaseStart(old(db.tables), old(db.calls), db.failures, uid, now, pid, newPhaseNumber, patientId)
  {
    var event := PhaseStartEvent(pid, uid, newPhaseNumber, now);
    var inserted, insertErr := db.Insert(JourneyEvents, event, now);
    if insertErr.Some? {
      return Some(map["id" := patientId, "phase_start_date" := JNum(now)]);
    }
    var newId := Prop(inserted.value, "id");
    var linkErr := db.Update(Patients, [("id", pid)], map["current_phase_id_pk" := newId]);
    return Some(map["id" := newId, "phase_start_date" := JNum(now)]);
  }

  /**
    Only the patient update's failure is reported, and a reported error
    means nothing changed; once the patient row is updated the call succeeds
    whatever the later steps do.
   */
  lemma PhaseErrorOnlyAtStart(
    tables: map<Table, seq<Record>>, calls: seq<Request>, failures: map<nat, Error>,
    user: Option<string>, now: int, pid: Json, pk: Json, n: int)
    ensures var r := PhaseOutcome(tables, calls, failures, user, now, pid, pk, n);
      (r.3.Some? <==> user.None? || |calls| in failures || |Where(RowsIn(tables, Patients), [("id", pid)])| != 1)
      && (r.3.Some? ==> r.0 == tables && r.2.None?)
      && (r.3.None? ==> r.2.Some? && "phase_start_date" in r.2.value && r.2.value["phase_start_date"] == JNum(now))
  {
  }

  /** The first `count` requests from position `k` on all succeed. */
  predicate AllSucceed(failures: map<nat, Error>, k: nat, count: nat) {
    forall j :: k <= j < k + count ==> j !in failures
  }

  /**
    A fully successful phase advance closes the previous event and appends
    the new one with one instant: the previous event's `phase_end_date` is
    the new `phase_start` event's `timestamp`. The new event is the last of
    the journey table, says which phase began, and its id is the reply's.
   */
  lemma PhaseAdvanceEvents(
    tables: map<Table, seq<Record>>, calls: seq<Request>, failures: map<nat, Error>,
    uid: string, now: int, pid: Json, pk: Json, n: int)
    requires Truthy(pk)
    requires |Where(RowsIn(tables, Patients), [("id", pid)])| == 1
    requires AllSucceed(failures, |calls|, 4)
    ensures var r := PhaseOutcome(tables, calls, failures, Some(uid), now, pid, pk, n);
      var event := Stamped(PhaseStartEvent(pid, uid, n, now), NewId(|calls| + 2), now);
      RowsIn(r.0, JourneyEvents)
        == Patched(RowsIn(tables, JourneyEvents), [("id", pk)], map["phase_end_date" := JNum(now)]) + [event]
      && event["id"] == JStr(NewId(|calls| + 2)) && event["timestamp"] == JNum(now)
      && r.2 == Some(map["id" := event["id"], "phase_start_date" := JNum(now)])
  {
    var f := [("id", pid)];
    var found := Where(RowsIn(tables, Patients), f);
    var patient := Project(found[0] + PhasePatch(n, now), {"id", "current_phase_id_pk"});
    var t1 := tables[Patients := Patched(RowsIn(tables, Patients), f, PhasePatch(n, now))];
    var c1 := calls + [Request(PATCH, Patients, f)];
    assert |calls| !in failures;
    assert PhaseOutcome(tables, calls, failures, Some(uid), now, pid, pk, n)
      == PhaseClose(t1, c1, failures, uid, now, pid, pk, n, Prop(patient, "id"));
    var c2 := c1 + [Request(PATCH, JourneyEvents, [("id", pk)])];
    assert |c1| == |calls| + 1 && |c2| == |calls| + 2;
    assert |c1| !in failures && |c2| !in failures && |c2| + 1 !in failures;
    PhaseStartAppends(t1[JourneyEvents := Patched(RowsIn(t1, JourneyEvents), [("id", pk)], map["phase_end_date" := JNum(now)])],
                      c2, failures, uid, now, pid, n, Prop(patient, "id"));
  }

  /**
    When the patient update succeeds but the insert of the `phase_start`
    event fails, the call still reports no error, appends no event, and its
    reply carries the patient's own id where the new event's id belongs.
   */
  lemma PhaseInsertFailureRepliesPatientId(
    tables: map<Table, seq<Record>>, calls: seq<Request>, failures: map<nat, Error>,
    uid: string, now: int, pid: Json, pk: Json, n: int)
    requires |Where(RowsIn(tables, Patients), [("id", pid)])| == 1
    requires |calls| !in failures
    requires (|calls| + if Truthy(pk) then 2 else 1) in failures
    ensures var r := PhaseOutcome(tables, calls, failures, Some(uid), now, pid, pk, n);
      r.3.None? && r.2 == Some(map["id" := pid, "phase_start_date" := JNum(now)])
      && |RowsIn(r.0, JourneyEvents)| == |RowsIn(tables, JourneyEvents)|
  {
    var f := [("id", pid)];
    var found := Where(RowsIn(tables, Patients), f);
    WhereSpec(RowsIn(tables, Patients), f);
    assert Matches(found[0], f) && f[0] == ("id", pid);
    assert "id" in found[0] && found[0]["id"] == pid;
    assert (found[0] + PhasePatch(n, now))["id"] == pid;
    var patient := Project(found[0] + PhasePatch(n, now), {"id", "current_phase_id_pk"});
    assert Prop(patient, "id") == pid;
    var t1 := tables[Patients := Patched(RowsIn(tables, Patients), f, PhasePatch(n, now))];
    var c1 := calls + [Request(PATCH, Patients, f)];
    assert PhaseOutcome(tables, calls, failures, Some(uid), now, pid, pk, n)
      == PhaseClose(t1, c1, failures, uid, now, pid, pk, n, pid);
    if Truthy(pk) {
      var c2 := c1 + [Request(PATCH, JourneyEvents, [("id", pk)])];
      assert |c2| == |calls| + 2;
    } else {
      assert |c1| == |calls| + 1;
    }
  }

  /** A successful insert appends the `phase_start` event, stamped with the id the store gives it, and replies with that id. */
  lemma PhaseStartAppends(
    tables: map<Table, seq<Record>>, calls: seq<Request>, failures: map<nat, Error>,
    uid: string, now: int, pid: Json, n: int, patientId: Json)
    requires |calls| !in failures
    ensures var r := PhaseStart(tables, calls, failures, uid, now, pid, n, patientId);
      var event := Stamped(PhaseStartEvent(pid, uid, n, now), NewId(|calls|), now);
      RowsIn(r.0, JourneyEvents) == RowsIn(tables, JourneyEvents) + [event]
      && event["id"] == JStr(NewId(|calls|)) && event["timestamp"] == JNum(now)
      && r.2 == Some(map["id" := event["id"], "phase_start_date" := JNum(now)])
  {
  }

  /**
    A fully successful phase advance updates the patient row with the new
    phase and its start instant and links it to the new `phase_start` event;
    the other patients are untouched.
   */
  lemma PhaseAdvancePatient(
    tables: map<Table, seq<Record>>, calls: seq<Request>, failures: map<nat, Error>,
    uid: string, now: int, pid: Json, pk: Json, n: int)
    requires |Where(RowsIn(tables, Patients), [("id", pid)])| == 1
    requires AllSucceed(failures, |calls|, 4)
    ensures var r := PhaseOutcome(tables, calls, failures, Some(uid), now, pid, pk, n);
      var before := RowsIn(tables, Patients);
      var patients := RowsIn(r.0, Patients);
      var newId := JStr(NewId(|calls| + if Truthy(pk) then 2 else 1));
      |patients| == |before|
      && (forall i :: 0 <= i < |before| ==>
            patients[i] == if Matches(before[i], [("id", pid)])
                           then before[i] + PhasePatch(n, now) + map["current_phase_id_pk" := newId]
                           else before[i])
  {
    var f := [("id", pid)];
    var found := Where(RowsIn(tables, Patients), f);
    var patient := Project(found[0] + PhasePatch(n, now), {"id", "current_phase_id_pk"});
    var t1 := tables[Patients := Patched(RowsIn(tables, Patients), f, PhasePatch(n, now))];
    var c1 := calls + [Request(PATCH, Patients, f)];
    assert |calls| !in failures;
    assert PhaseOutcome(tables, calls, failures, Some(uid), now, pid, pk, n)
      == PhaseClose(t1, c1, failures, uid, now, pid, pk, n, Prop(patient, "id"));
    assert |c1| == |calls| + 1 && |c1| !in failures && |c1| + 1 !in failures;
    if Truthy(pk) {
      var c2 := c1 + [Request(PATCH, JourneyEvents, [("id", pk)])];
      assert |c2| == |calls| + 2 && |c2| !in failures && |c2| + 1 !in failures;
      var t2 := t1[JourneyEvents := Patched(RowsIn(t1, JourneyEvents), [("id", pk)], map["phase_end_date" := JNum(now)])];
      PhaseStartLinks(t2, c2, failures, uid, now, pid, n, Prop(patient, "id"));
    } else {
      PhaseStartLinks(t1, c1, failures, uid, now, pid, n, Prop(patient, "id"));
    }
    var newId := JStr(NewId(|calls| + if Truthy(pk) then 2 else 1));
    PatchedTwice(RowsIn(tables, Patients), f, PhasePatch(n, now), map["current_phase_id_pk" := newId]);
  }

  /** When the insert and the link succeed, the patient rows get the new event's id. */
  lemma PhaseStartLinks(
    tables: map<Table, seq<Record>>, calls: seq<Request>, failures: map<nat, Error>,
    uid: string, now: int, pid: Json, n: int, patientId: Json)
    requires |calls| !in failures && |calls| + 1 !in failures
    ensures RowsIn(PhaseStart(tables, calls, failures, uid, now, pid, n, patientId).0, Patients)
      == Patched(RowsIn(tables, Patients), [("id", pid)], map["current_phase_id_pk" := JStr(NewId(|calls|))])
  {
    assert |calls + [Request(POST, JourneyEvents, [])]| == |calls| + 1;
  }

  /** The patient rows after the insert and the link: linked to the new event when both succeed, otherwise as they were. */
  lemma PhaseStartPatients(
    tables: map<Table, seq<Record>>, calls: seq<Request>, failures: map<nat, Error>,
    uid: string, now: int, pid: Json, n: int, patientId: Json)
    ensures RowsIn(PhaseStart(tables, calls, failures, uid, now, pid, n, patientId).0, Patients)
      == if |calls| in failures || |calls| + 1 in failures then RowsIn(tables, Patients)
         else Patched(RowsIn(tables, Patients), [("id", pid)], map["current_phase_id_pk" := JStr(NewId(|calls|))])
  {
    assert |calls + [Request(POST, JourneyEvents, [])]| == |calls| + 1;
    if |calls| !in failures && |calls| + 1 !in failures {
      PhaseStartLinks(tables, calls, failures, uid, now, pid, n, patientId);
    }
  }

  /**
    Once the patient update succeeds, the new phase number and its start
    instant stay on the patient whatever the closing of the previous event,
    the insert of the new one and the link do: the call reports no error,
    the other patients are untouched, and the updated row differs from the
    patched one at most in its link to the new event.
   */
  lemma PhaseAuthoritativeSurvives(
    tables: map<Table, seq<Record>>, calls: seq<Request>, failures: map<nat, Error>,
    uid: string, now: int, pid: Json, pk: Json, n: int)
    requires |Where(RowsIn(tables, Patients), [("id", pid)])| == 1
    requires |calls| !in failures
    ensures var r := PhaseOutcome(tables, calls, failures, Some(uid), now, pid, pk, n);
      var before := RowsIn(tables, Patients);
      var patients := RowsIn(r.0, Patients);
      r.3.None? && |patients| == |before|
      && forall i :: 0 <= i < |before| ==>
           if Matches(before[i], [("id", pid)]) then
             "current_phase_number" in patients[i] && patients[i]["current_phase_number"] == JNum(n)
             && "phase_start_date" in patients[i] && patients[i]["phase_start_date"] == JNum(now)
             && patients[i] - {"current_phase_id_pk"} == before[i] + PhasePatch(n, now) - {"current_phase_id_pk"}
           else patients[i] == before[i]
  {
    var f := [("id", pid)];
    var before := RowsIn(tables, Patients);
    var found := Where(before, f);
    var patient := Project(found[0] + PhasePatch(n, now), {"id", "current_phase_id_pk"});
    var t1 := tables[Patients := Patched(before, f, PhasePatch(n, now))];
    var c1 := calls + [Request(PATCH, Patients, f)];
    assert PhaseOutcome(tables, calls, failures, Some(uid), now, pid, pk, n)
      == PhaseClose(t1, c1, failures, uid, now, pid, pk, n, Prop(patient, "id"));
    var t, c := t1, c1;
    if Truthy(pk) {
      c := c1 + [Request(PATCH, JourneyEvents, [("id", pk)])];
      t := if |c1| in failures then t1
           else t1[JourneyEvents := Patched(RowsIn(t1, JourneyEvents), [("id", pk)], map["phase_end_date" := JNum(now)])];
    }
    assert PhaseClose(t1, c1, failures, uid, now, pid, pk, n, Prop(patient, "id"))
      == PhaseStart(t, c, failures, uid, now, pid, n, Prop(patient, "id"));
    assert RowsIn(t, Patients) == Patched(before, f, PhasePatch(n, now));
    PhaseStartPatients(t, c, failures, uid, now, pid, n, Prop(patient, "id"));
    PhasePatchKept(before, pid, n, now, RowsIn(PhaseOutcome(tables, calls, failures, Some(uid), now, pid, pk, n).0, Patients),
                   JStr(NewId(|c|)));
  }

  /** Rows given the phase patch, then perhaps the link, keep the phase number and its start instant. */
  lemma PhasePatchKept(before: seq<Record>, pid: Json, n: int, now: int, patients: seq<Record>, newId: Json)
    requires var patched := Patched(before, [("id", pid)], PhasePatch(n, now));
      patients == patched || patients == Patched(patched, [("id", pid)], map["current_phase_id_pk" := newId])
    ensures |patients| == |before|
    ensures forall i :: 0 <= i < |before| ==>
           if Matches(before[i], [("id", pid)]) then
             "current_phase_number" in patients[i] && patients[i]["current_phase_number"] == JNum(n)
             && "phase_start_date" in patients[i] && patients[i]["phase_start_date"] == JNum(now)
             && patients[i] - {"current_phase_id_pk"} == before[i] + PhasePatch(n, now) - {"current_phase_id_pk"}
           else patients[i] == before[i]
  {
    var f := [("id", pid)];
    var link := map["current_phase_id_pk" := newId];
    PatchedTwice(before, f, PhasePatch(n, now), link);
    forall i | 0 <= i < |before| && Matches(before[i], f)
      ensures before[i] + PhasePatch(n, now) + link - {"current_phase_id_pk"}
              == before[i] + PhasePatch(n, now) - {"current_phase_id_pk"}
    {
    }
  }

  /** Two updates with one filter whose patches leave the filter's columns alone are one update with both patches. */
  lemma PatchedTwice(rows: seq<Record>, f: Filter, p: Record, q: Record)
    requires forall i :: 0 <= i < |f| ==> f[i].0 !in p
    ensures var twice := Patched(Patched(rows, f, p), f, q);
      |twice| == |rows|
      && forall i :: 0 <= i < |rows| ==> twice[i] == if Matches(rows[i], f) then rows[i] + p + q else rows[i]
  {
    var once := Patched(rows, f, p);
    forall i | 0 <= i < |rows|
      ensures Matches(once[i], f) == Matches(rows[i], f)
    {
      if Matches(rows[i], f) {
        assert once[i] == rows[i] + p;
      }
    }
  }
}
