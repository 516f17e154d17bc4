/**
  The technique evaluation page (`TechniqueEvaluationPage`): the kind of
  input each schema field gets, the evaluation data initialised from the
  selected technique's schema and edited key by key, and the submit that
  stores the evaluation.
 */
module TechniqueEvaluation {
  import opened Values
  import opened Backend
  import Text
  import TechniquesService

  /** The inputs `DynamicFormField` can render. */
  datatype FieldKind = TextInput | TextArea | NumberInput | SelectInput | DefaultInput

  /** `fieldConfig.type?.toLowerCase()` can run: the config is not null and a present type is a string. */
  predicate Dispatchable(config: Json) {
    config != JNull && (config.JObj? ==> var t := Prop(config.fields, "type"); t.JNull? || t.JStr?)
  }

  /** The field's declared type, when it has one (any non-object config has none). */
  function FieldType(config: Json): Option<string> {
    if config.JObj? && Prop(config.fields, "type").JStr? then Some(Prop(config.fields, "type").s) else None
  }

  /** The `switch` on the lower-cased type. */
  function KindOf(config: Json): FieldKind
    requires Dispatchable(config)
  {
    match FieldType(config)
    case None => DefaultInput
    case Some(t) =>
      var lowered := Text.Lower(t);
      if lowered == "text" || lowered == "string" then TextInput
      else if lowered == "textarea" then TextArea
      else if lowered == "number" then NumberInput
      else if lowered == "select" then SelectInput
      else DefaultInput
  }

  /** Lower-casing twice is lower-casing once. */
  lemma LowerTwice(s: string)
    ensures Text.Lower(Text.Lower(s)) == Text.Lower(s)
  {
    forall i | 0 <= i < |s|
      ensures Text.LowerChar(Text.LowerChar(s[i])) == Text.LowerChar(s[i])
    {
    }
  }

  /** The kind depends on the type only up to case: a type and its lower-cased form give the same input. */
  lemma KindIgnoresCase(m: map<string, Json>, t: string)
    ensures KindOf(JObj(m["type" := JStr(t)])) == KindOf(JObj(m["type" := JStr(Text.Lower(t))]))
  {
    LowerTwice(t);
    assert FieldType(JObj(m["type" := JStr(t)])) == Some(t);
    assert FieldType(JObj(m["type" := JStr(Text.Lower(t))])) == Some(Text.Lower(t));
  }

  /** A config without a type, or with a type the switch does not name, gets the default text input. */
  lemma KindDefaults(config: Json)
    requires Dispatchable(config)
    ensures FieldType(config).None? ==> KindOf(config) == DefaultInput
    ensures FieldType(config).Some? && Text.Lower(FieldType(config).value) !in {"text", "string", "textarea", "number", "select"}
      ==> KindOf(config) == DefaultInput
    ensures KindOf(config) != DefaultInput ==> FieldType(config).Some?
  {
  }

  /** `fieldConfig.label || fieldKey` */
  function Label(config: Json, key: string): (l: Json)
    requires config != JNull
  {
    Or(if config.JObj? then Prop(config.fields, "label") else JNull, JStr(key))
  }

  /** The label is the config's own label when that is truthy, and the field's key otherwise. */
  lemma LabelFallback(config: Json, key: string)
    requires config != JNull
    ensures config.JObj? && Truthy(Prop(config.fields, "label")) ==> Label(config, key) == config.fields["label"]
    ensures !(config.JObj? && Truthy(Prop(config.fields, "label"))) ==> Label(config, key) == JStr(key)
    ensures Truthy(Label(config, key)) || key == ""
  {
  }

  /** `opt.value || opt` */
  function OptionValue(opt: Json): (v: Json)
    requires opt != JNull
  {
    if opt.JObj? then Or(Prop(opt.fields, "value"), opt) else opt
  }

  /** A select option submits its own `value` when that is truthy, and the option itself otherwise. */
  lemma OptionValueSpec(opt: Json)
    requires opt != JNull
    ensures opt.JObj? && Truthy(Prop(opt.fields, "value")) ==> OptionValue(opt) == opt.fields["value"]
    ensures !(opt.JObj? && Truthy(Prop(opt.fields, "value"))) ==> OptionValue(opt) == opt
    ensures Truthy(opt) ==> Truthy(OptionValue(opt))
  {
  }

  /** `schema[key].defaultValue` */
  function DefaultValue(config: Json): Json
    requires config != JNull
  {
    if config.JObj? then Prop(config.fields, "defaultValue") else JNull
  }

  /** The schema the page reads from a technique. */
  function Schema(technique: Record): Json {
    Prop(technique, "evaluation_schema")
  }

  /** A schema the page can walk: when truthy, none of its entries is null (reading `defaultValue` of null throws). */
  predicate SchemaShaped(technique: Record) {
    var s := Schema(technique);
    Truthy(s) ==> forall k :: k in Entries(s) ==> Entries(s)[k] != JNull
  }

  /**
    The schemas the walk takes besides objects: an array gives each element's
    default under the element's index, a string gives '' under each
    character's index, and a number or a boolean gives no key at all.
   */
  lemma NonObjectSchemas(s: Json)
    ensures s.JArr? ==> forall i :: 0 <= i < |s.items| ==>
      Text.NatToString(i) in Entries(s) && Entries(s)[Text.NatToString(i)] == s.items[i]
    ensures s.JStr? ==> forall i :: 0 <= i < |s.s| ==>
      Text.NatToString(i) in Entries(s) && Or(DefaultValue(Entries(s)[Text.NatToString(i)]), JStr("")) == JStr("")
    ensures s.JNum? || s.JBool? ==> Entries(s) == map[]
  {
    var e := Entries(s);
    if s.JArr? {
      assert e == Indexed(s.items);
    } else if s.JStr? {
      forall i | 0 <= i < |s.s|
        ensures Text.NatToString(i) in e && Or(DefaultValue(e[Text.NatToString(i)]), JStr("")) == JStr("")
      {
        assert e[Text.NatToString(i)] == JStr([s.s[i]]);
      }
    }
  }

  /**
    The `forEach` over the schema's keys: every key gets its `defaultValue`,
    or '' when that is falsy, and no other key appears.
   */
  method InitialData(schema: map<string, Json>) returns (data: map<string, Json>)
    requires forall k :: k in schema ==> schema[k] != JNull
    ensures data.Keys == schema.Keys
    ensures forall k :: k in data ==> data[k] == Or(DefaultValue(schema[k]), JStr(""))
    ensures forall k :: k in data ==> Truthy(data[k]) || data[k] == JStr("")
  {
    data := map[];
    var pending := schema.Keys;
    while pending != {}
      invariant pending <= schema.Keys
      invariant data.Keys == schema.Keys - pending
      invariant forall k :: k in data ==> data[k] == Or(DefaultValue(schema[k]), JStr(""))
      decreases pending
    {
      var key :| key in pending;
      data := data[key := Or(DefaultValue(schema[key]), JStr(""))];
      pending := pending - {key};
    }
  }

  /** The evaluation form shows: a technique is selected and its schema has a key. */
  predicate FormShown(technique: Option<Record>) {
    technique.Some? && Truthy(Schema(technique.value)) && KeyCount(Schema(technique.value)) > 0
  }

  /** The "no schema" notice shows: a technique is selected and its schema is missing or has no key. */
  predicate NoticeShown(technique: Option<Record>) {
    technique.Some? && (!Truthy(Schema(technique.value)) || KeyCount(Schema(technique.value)) == 0)
  }

  /** With a technique selected exactly one of the form and the notice shows; without one, neither. */
  lemma FormOrNotice(technique: Option<Record>)
    ensures technique.Some? ==> (FormShown(technique) <==> !NoticeShown(technique))
    ensures technique.None? ==> !FormShown(technique) && !NoticeShown(technique)
    ensures FormShown(technique) ==> Schema(technique.value) != JObj(map[])
  {
  }

  /**
    The evaluation submitted: the loaded patient's and technique's ids (left
    out when they have none), the evaluation data as both data and results,
    the notes and the date.
   */
  function Payload(patient: Record, technique: Record, data: map<string, Json>, notes: string, date: Json): Record {
    Defined(Defined(map["evaluation_data" := JObj(data), "evaluation_results" := JObj(data),
                        "notes" := JStr(notes), "evaluation_date" := date],
                    "patient_id", Get(patient, "id")),
            "knowledge_base_id", Get(technique, "id"))
  }

  /**
    The payload's results are its data, both the page's evaluation data; its
    patient and technique ids are exactly those of the loaded records.
   */
  lemma PayloadSpec(patient: Record, technique: Record, data: map<string, Json>, notes: string, date: Json)
    ensures var p := Payload(patient, technique, data, notes, date);
      Get(p, "evaluation_results") == Get(p, "evaluation_data") == Some(JObj(data))
      && Get(p, "patient_id") == Get(patient, "id")
      && Get(p, "knowledge_base_id") == Get(technique, "id")
      && Get(p, "notes") == Some(JStr(notes))
  {
  }

  /** The row stored for a payload keeps the payload's data, results and ids, and names the user as therapist. */
  lemma StoredPayloadFields(payload: Record, uid: string, newId: string, now: int)
    ensures var row := Stamped(TechniquesService.EvaluationRecord(payload, uid), newId, now);
      Get(row, "evaluation_results") == Get(payload, "evaluation_results")
      && Get(row, "evaluation_data") == Get(payload, "evaluation_data")
      && Get(row, "patient_id") == Get(payload, "patient_id")
      && Get(row, "knowledge_base_id") == Get(payload, "knowledge_base_id")
      && Get(row, "therapist_id") == Some(JStr(uid))
  {
    var rec := TechniquesService.EvaluationRecord(payload, uid);
    TechniquesService.EvaluationRecordFields(payload, uid);
    StampedFields(rec, newId, now);
  }

  /** The stored evaluation is the reply, and it is in the table. */
  lemma StoredPayload(
    tables: map<Table, seq<Record>>, calls: seq<Request>, failures: map<nat, Error>, uid: string, now: int, payload: Record)
    requires |calls| !in failures
    ensures var r := TechniquesService.EvaluationOutcome(tables, calls, failures, Some(uid), now, payload);
      r.2 == Some(Stamped(TechniquesService.EvaluationRecord(payload, uid), NewId(|calls|), now))
      && r.2.value in RowsIn(r.0, TechniqueEvaluations)
  {
    var r := TechniquesService.EvaluationOutcome(tables, calls, failures, Some(uid), now, payload);
    var row := Stamped(TechniquesService.EvaluationRecord(payload, uid), NewId(|calls|), now);
    TechniquesService.EvaluationStored(tables, calls, failures, uid, now, payload);
    assert RowsIn(r.0, TechniqueEvaluations)[|RowsIn(tables, TechniqueEvaluations)|] == row;
  }

  /**
    A submitted evaluation that is stored carries the page's data as both its
    data and its results, the loaded ids, and the signed-in user as therapist.
   */
  lemma SubmittedEvaluationStored(
    tables: map<Table, seq<Record>>, calls: seq<Request>, failures: map<nat, Error>,
    uid: string, now: int, patient: Record, technique: Record, data: map<string, Json>, notes: string, date: Json)
    requires |calls| !in failures
    ensures var r := TechniquesService.EvaluationOutcome(tables, calls, failures, Some(uid), now,
                                                          Payload(patient, technique, data, notes, date));
      r.2.Some? && r.2.value in RowsIn(r.0, TechniqueEvaluations)
      && Get(r.2.value, "evaluation_results") == Get(r.2.value, "evaluation_data") == Some(JObj(data))
      && Get(r.2.value, "patient_id") == Get(patient, "id")
      && Get(r.2.value, "knowledge_base_id") == Get(technique, "id")
      && Get(r.2.value, "therapist_id") == Some(JStr(uid))
  {
    var payload := Payload(patient, technique, data, notes, date);
    PayloadSpec(patient, technique, data, notes, date);
    StoredPayload(tables, calls, failures, uid, now, payload);
    StoredPayloadFields(payload, uid, NewId(|calls|), now);
    var row := Stamped(TechniquesService.EvaluationRecord(payload, uid), NewId(|calls|), now);
    assert Get(row, "evaluation_results") == Get(payload, "evaluation_results") == Some(JObj(data));
    assert Get(row, "evaluation_data") == Get(payload, "evaluation_data") == Some(JObj(data));
  }

  /** The page's state. */
  class EvaluationPage {
    var patient: Option<Record>
    var technique: Option<Record>
    var evaluationData: map<string, Json>
    var notes: string
    var isLoading: bool
    var isSubmitting: bool

    /** The page before anything is loaded. */
    constructor ()
      ensures patient.None? && technique.None? && evaluationData == map[] && notes == ""
      ensures isLoading && !isSubmitting
    {
      patient := None;
      technique := None;
      evaluationData := map[];
      notes := "";
      isLoading := true;
      isSubmitting := false;
    }

    /**
      The selected-technique effect, given what the technique lookup found:
      no selection clears the technique and the data; a found technique is
      shown with data initialised from its schema, or `{}` without one; a
      technique not found clears the technique and leaves the data as it was.
     */
    method SelectTechnique(selectedId: Json, found: Option<Record>)
      requires found.Some? ==> SchemaShaped(found.value)
      modifies this
      ensures !Truthy(selectedId) ==>
        technique.None? && evaluationData == map[] && isLoading == old(isLoading)
      ensures Truthy(selectedId) && found.None? ==>
        technique.None? && evaluationData == old(evaluationData) && !isLoading
      ensures Truthy(selectedId) && found.Some? ==>
        technique == found && !isLoading
        && var s := Schema(found.value);
        (Truthy(s) ==> evaluationData.Keys == Entries(s).Keys
                       && forall k :: k in evaluationData ==> evaluationData[k] == Or(DefaultValue(Entries(s)[k]), JStr("")))
        && (!Truthy(s) ==> evaluationData == map[])
      ensures patient == old(patient) && notes == old(notes) && isSubmitting == old(isSubmitting)
    {
      if Truthy(selectedId) {
        isLoading := true;
        if found.Some? {
          technique := found;
          var s := Schema(found.value);
          if Truthy(s) {
            evaluationData := InitialData(Entries(s));
          } else {
            evaluationData := map[];
          }
        } else {
          technique := None;
        }
        isLoading := false;
      } else {
        technique := None;
        evaluationData := map[];
      }
    }

    /** `handleEvaluationDataChange`: the named key takes the checkbox's `checked` or the input's value. */
    method HandleChange(name: string, value: Json, isCheckbox: bool, checked: bool)
      modifies this
      ensures evaluationData == old(evaluationData)[name := if isCheckbox then JBool(checked) else value]
      ensures forall k :: k in old(evaluationData) && k != name ==> k in evaluationData && evaluationData[k] == old(evaluationData)[k]
      ensures patient == old(patient) && technique == old(technique) && notes == old(notes)
      ensures isLoading == old(isLoading) && isSubmitting == old(isSubmitting)
    {
      evaluationData := evaluationData[name := if isCheckbox then JBool(checked) else value];
    }

    /**
      `handleSubmit`: without a loaded patient or technique nothing is sent;
      otherwise the payload is saved as the signed-in user and the page is
      no longer submitting. `saved` is whether the save returned data.
     */
    method HandleSubmit(db: Store, user: Option<string>, now: int, date: Json) returns (saved: bool)
      modifies this, db
      ensures patient.None? || technique.None? ==>
        !saved && db.tables == old(db.tables) && db.calls == old(db.calls) && isSubmitting == old(isSubmitting)
      ensures patient.Some? && technique.Some? ==>
        var r := TechniquesService.EvaluationOutcome(old(db.tables), old(db.calls), db.failures, user, now,
                                                      Payload(patient.value, technique.value, evaluationData, notes, date));
        db.tables == r.0 && db.calls == r.1 && saved == r.2.Some? && !isSubmitting
      ensures patient == old(patient) && technique == old(technique) && evaluationData == old(evaluationData)
      ensures notes == old(notes) && isLoading == old(isLoading)
    {
      if patient.None? || technique.None? {
        return false;
      }
      isSubmitting := true;
      var payload := Payload(patient.value, technique.value, evaluationData, notes, date);
      var data, error := TechniquesService.SaveTechniqueEvaluation(db, user, now, payload);
      saved := data.Some?;
      isSubmitting := false;
    }
  }
}
