/**
  The technique management page: the `id_key` slug, the parsing of the
  form's structured fields, the form filled from a stored technique for
  editing, the search filter, and the seeding of the initial technique set.
  `JSON.parse` and `JSON.stringify` are parameters.
 */
module ManageTechniques {
  import opened Values
  import opened Backend
  import Text
  import Seqs
  import TechniquesService

  // ---------------------------------------------------------------- slug

  /** The characters `/[^\w-]+/g` keeps. */
  predicate IsSlugChar(c: char) {
    Text.IsWordChar(c) || c == '-'
  }

  /** `s.replace(/\s+/g, '_')`: every run of white space becomes one underscore. */
  function CollapseSpaces(s: string): (r: string)
    ensures |r| <= |s|
    decreases |s|
  {
    if s == [] then []
    else if Text.IsSpace(s[0]) then "_" + CollapseSpaces(Text.TrimStart(s[1..]))
    else [s[0]] + CollapseSpaces(s[1..])
  }

  /** No white space is left. */
  lemma {:induction false} CollapseSpacesNoSpace(s: string)
    ensures forall i :: 0 <= i < |CollapseSpaces(s)| ==> !Text.IsSpace(CollapseSpaces(s)[i])
    decreases |s|
  {
    if s != [] {
      var tail := if Text.IsSpace(s[0]) then Text.TrimStart(s[1..]) else s[1..];
      CollapseSpacesNoSpace(tail);
    }
  }

  /** Every character but the underscores comes from the input. */
  lemma {:induction false} CollapseSpacesFrom(s: string)
    ensures forall i :: 0 <= i < |CollapseSpaces(s)| ==> CollapseSpaces(s)[i] == '_' || CollapseSpaces(s)[i] in s
    decreases |s|
  {
    if s != [] {
      var tail := if Text.IsSpace(s[0]) then Text.TrimStart(s[1..]) else s[1..];
      CollapseSpacesFrom(tail);
      assert tail == s[|s| - |tail|..];
      assert forall c :: c in tail ==> c in s;
    }
  }

  /** A string without white space has no run to replace. */
  lemma {:induction false} CollapseSpacesNone(s: string)
    requires forall i :: 0 <= i < |s| ==> !Text.IsSpace(s[i])
    ensures CollapseSpaces(s) == s
    decreases |s|
  {
    if s != [] {
      CollapseSpacesNone(s[1..]);
    }
  }

  /** `s.toLowerCase().replace(/\s+/g, '_').replace(/[^\w-]+/g, '')` */
  function Slug(s: string): string {
    Seqs.Filter(CollapseSpaces(Text.Lower(s)), IsSlugChar)
  }

  /** A slug holds only letters, digits, '_' and '-', and no upper-case letter. */
  lemma SlugChars(s: string)
    ensures forall i :: 0 <= i < |Slug(s)| ==> IsSlugChar(Slug(s)[i]) && !Text.IsUpperLetter(Slug(s)[i])
  {
    var l := Text.Lower(s);
    var c := CollapseSpaces(l);
    CollapseSpacesFrom(l);
    Seqs.FilterMembers(c, IsSlugChar);
    forall i | 0 <= i < |Slug(s)| ensures !Text.IsUpperLetter(Slug(s)[i]) {
      var x := Slug(s)[i];
      assert x in c;
      if x != '_' {
        assert x in l;
        var j :| 0 <= j < |l| && l[j] == x;
      }
    }
  }

  /** The slug of a slug is itself. */
  lemma SlugIdempotent(s: string)
    ensures Slug(Slug(s)) == Slug(s)
  {
    var t := Slug(s);
    SlugChars(s);
    assert Text.Lower(t) == t;
    CollapseSpacesNone(t);
    Seqs.FilterAll(t, IsSlugChar);
  }

  /** A string of lower-case slug characters is its own slug. */
  lemma SlugOfSlugChars(t: string)
    requires forall i :: 0 <= i < |t| ==> IsSlugChar(t[i]) && !Text.IsUpperLetter(t[i])
    ensures Slug(t) == t
  {
    assert Text.Lower(t) == t;
    CollapseSpacesNone(t);
    Seqs.FilterAll(t, IsSlugChar);
  }

  // ---------------------------------------------------------------- form

  /** The technique form: every field is the text of an input. */
  datatype Form = Form(
    title: string, description: string, category: string, techniqueType: string,
    corePrinciples: string, targetConditions: string, techniquesPractices: string,
    contraindications: string, evaluationSchema: string, reportTemplate: string, idKey: string)

  /** The key the form saves: the slug of `id_key` when it is filled in, else the slug of the title. */
  function IdKey(form: Form): string {
    if form.idKey != "" then Slug(form.idKey) else Slug(form.title)
  }

  /** The result of `parseJsonOrString`: a value, or the error it throws. */
  datatype Parsed = Parsed(value: Json) | Malformed

  /** `parseJsonOrString`: null for blank text, otherwise the parse, whose failure is thrown. */
  function ParseJsonOrString(parse: string -> Option<Json>, s: string): (r: Parsed)
    ensures Text.Trim(s) == [] ==> r == Parsed(JNull)
    ensures Text.Trim(s) != [] ==> (r.Malformed? <==> parse(s).None?)
    ensures Text.Trim(s) != [] && r.Parsed? ==> Some(r.value) == parse(s)
  {
    if Text.Trim(s) == [] then Parsed(JNull)
    else if parse(s).Some? then Parsed(parse(s).value)
    else Malformed
  }

  /** Each piece with `trim()` applied. */
  function Trimmed(parts: seq<string>): (r: seq<string>)
    ensures |r| == |parts|
    ensures forall k :: 0 <= k < |parts| ==> r[k] == Text.Trim(parts[k])
  {
    seq(|parts|, k requires 0 <= k < |parts| => Text.Trim(parts[k]))
  }

  predicate NonEmpty(s: string) {
    s != ""
  }

  /** `parseArrayOrString`: null for blank text, else the comma-separated items, trimmed, without empty ones. */
  function ParseArrayOrString(s: string): Option<seq<string>> {
    if Text.Trim(s) == [] then None
    else Some(Seqs.Filter(Trimmed(Text.Split(s, ',')), NonEmpty))
  }

  /** The list is null exactly for text that is empty or white space. */
  lemma ParseArrayOrStringBlank(s: string)
    ensures ParseArrayOrString(s).None? <==> forall i :: 0 <= i < |s| ==> Text.IsSpace(s[i])
  {
    Text.TrimBlank(s);
  }

  /** Every item of the list is trimmed and non-empty. */
  lemma ParseArrayOrStringItems(s: string)
    requires ParseArrayOrString(s).Some?
    ensures forall k :: 0 <= k < |ParseArrayOrString(s).value| ==>
      ParseArrayOrString(s).value[k] != "" && Text.Trim(ParseArrayOrString(s).value[k]) == ParseArrayOrString(s).value[k]
  {
    var pieces := Text.Split(s, ',');
    var parts := Trimmed(pieces);
    var r := ParseArrayOrString(s).value;
    Seqs.FilterMembers(parts, NonEmpty);
    forall k | 0 <= k < |r| ensures r[k] != "" && Text.Trim(r[k]) == r[k] {
      var j :| 0 <= j < |parts| && parts[j] == r[k];
      TrimTwice(pieces[j]);
    }
  }

  /** Trimming twice is trimming once. */
  lemma TrimTwice(s: string)
    ensures Text.Trim(Text.Trim(s)) == Text.Trim(s)
  {
    Text.TrimSlice(s);
    Text.TrimOfTrimmed(Text.Trim(s));
  }

  /** What a list item must be to survive the round trip: trimmed, non-empty, without a comma. */
  predicate PlainItem(x: string) {
    x != "" && Text.Trim(x) == x && ',' !in x
  }

  /**
    Joining a list with ', ', as the edit form does, and parsing it back gives
    the list again when every item is trimmed, non-empty and comma-free.
   */
  lemma ParseJoinRoundTrip(items: seq<string>)
    requires items != []
    requires forall k :: 0 <= k < |items| ==> PlainItem(items[k])
    ensures ParseArrayOrString(Text.Join(items, ", ")) == Some(items)
  {
    var s := Text.Join(items, ", ");
    Text.SplitJoin(items);
    TrimmedBlanked(items);
    Seqs.FilterAll(items, NonEmpty);
    JoinNotBlank(items);
  }

  /** Trimming the pieces of a split `', '`-joined list removes the blanks again. */
  lemma TrimmedBlanked(items: seq<string>)
    requires items != []
    requires forall k :: 0 <= k < |items| ==> PlainItem(items[k])
    ensures Trimmed(Text.Blanked(items)) == items
  {
    var b := Text.Blanked(items);
    forall k | 1 <= k < |items| ensures Text.Trim(b[k]) == items[k] {
      Text.TrimLeadingBlank(items[k]);
    }
  }

  /** A joined list whose first item is trimmed and non-empty is not blank. */
  lemma JoinNotBlank(items: seq<string>)
    requires items != [] && PlainItem(items[0])
    ensures Text.Trim(Text.Join(items, ", ")) != []
  {
    var s := Text.Join(items, ", ");
    Text.TrimSlice(items[0]);
    assert s[0] == items[0][0];
    Text.TrimBlank(s);
  }

  /** What `handleSubmit` does with the form. */
  datatype Submission =
    | Aborted    // a structured field did not parse: nothing is saved
    | Rejected   // the slug is empty: nothing is saved
    | Save(technique: Record)  // the record passed to `saveTechnique`

  /** The form's list field as sent: null when the text is empty or blank, else the array of items. */
  function TargetConditions(s: string): Json {
    if s == "" then JNull
    else
      var items := ParseArrayOrString(s);
      if items.None? then JNull
      else JArr(seq(|items.value|, k requires 0 <= k < |items.value| => JStr(items.value[k])))
  }

  /**
    `handleSubmit`: parse the four JSON fields in turn (the first failure
    aborts), parse the list field, derive the `id_key` (an empty one is
    rejected) and build the record; `current` is the technique being edited.
   */
  function Submit(form: Form, current: Option<Record>, parse: string -> Option<Json>): Submission {
    var core := ParseJsonOrString(parse, form.corePrinciples);
    var practices := ParseJsonOrString(parse, form.techniquesPractices);
    var schema := ParseJsonOrString(parse, form.evaluationSchema);
    var template := ParseJsonOrString(parse, form.reportTemplate);
    if core.Malformed? || practices.Malformed? || schema.Malformed? || template.Malformed? then Aborted
    else if IdKey(form) == "" then Rejected
    else
      var record := FormRecord(form, core.value, practices.value, schema.value, template.value);
      Save(Defined(record, "id", if current.Some? then Get(current.value, "id") else None))
  }

  /** The record `handleSubmit` builds from the form and the parsed fields, before the id is added. */
  function FormRecord(form: Form, core: Json, practices: Json, schema: Json, template: Json): (r: Record)
    ensures "id" !in r && "id_key" in r && r["id_key"] == JStr(IdKey(form))
  {
    map[
      "title" := JStr(form.title), "description" := JStr(form.description),
      "category" := JStr(form.category), "type" := JStr(form.techniqueType),
      "core_principles" := core, "target_conditions" := TargetConditions(form.targetConditions),
      "techniques_practices" := practices, "contraindications" := JStr(form.contraindications),
      "evaluation_schema" := schema, "report_template" := template,
      "id_key" := JStr(IdKey(form))]
  }

  /** Which JSON fields of the form hold text that does not parse. */
  predicate SomeFieldMalformed(form: Form, parse: string -> Option<Json>) {
    ParseJsonOrString(parse, form.corePrinciples).Malformed?
    || ParseJsonOrString(parse, form.techniquesPractices).Malformed?
    || ParseJsonOrString(parse, form.evaluationSchema).Malformed?
    || ParseJsonOrString(parse, form.reportTemplate).Malformed?
  }

  /**
    The submit saves exactly when every JSON field parses and the key is not
    empty; a parse failure wins over an empty key.
   */
  lemma SubmitCases(form: Form, current: Option<Record>, parse: string -> Option<Json>)
    ensures Submit(form, current, parse).Aborted? <==> SomeFieldMalformed(form, parse)
    ensures Submit(form, current, parse).Rejected? <==> !SomeFieldMalformed(form, parse) && IdKey(form) == ""
  {
  }

  /** A saved record carries the key, which is a non-empty slug. */
  lemma SubmitKey(form: Form, current: Option<Record>, parse: string -> Option<Json>)
    requires Submit(form, current, parse).Save?
    ensures Submit(form, current, parse).technique["id_key"] == JStr(IdKey(form))
    ensures IdKey(form) != "" && Slug(IdKey(form)) == IdKey(form)
  {
    if form.idKey != "" {
      SlugIdempotent(form.idKey);
    } else {
      SlugIdempotent(form.title);
    }
  }

  /** A saved record has an `id` exactly when the technique being edited has one, and it is that id. */
  lemma SubmitId(form: Form, current: Option<Record>, parse: string -> Option<Json>)
    requires Submit(form, current, parse).Save?
    ensures var t := Submit(form, current, parse).technique;
      ("id" in t <==> current.Some? && "id" in current.value)
      && ("id" in t ==> t["id"] == current.value["id"])
  {
  }

  /** `v || ''` as the text of an input. */
  function FormText(v: Json): (t: string)
    ensures !Truthy(v) ==> t == ""
    ensures v.JStr? ==> t == v.s
  {
    if Truthy(v) then Display(v) else ""
  }

  /** An array element as `join` writes it: null is empty. */
  function ItemText(v: Json): string {
    if v.JNull? then "" else Display(v)
  }

  /** The list field of the edit form: an array joined with ', ', a string as it is, anything else empty. */
  function ListText(v: Json): string {
    match v
    case JArr(items) => Text.Join(seq(|items|, k requires 0 <= k < |items| => ItemText(items[k])), ", ")
    case JStr(s) => s
    case _ => ""
  }

  /** `handleEdit`: the form filled from a stored technique, its JSON fields written with `stringify`. */
  function EditForm(technique: Record, stringify: Json -> string): Form {
    var json := (k: string) => if Has(technique, k) then stringify(technique[k]) else "";
    Form(
      FormText(Prop(technique, "title")), FormText(Prop(technique, "description")),
      FormText(Prop(technique, "category")), FormText(Prop(technique, "type")),
      json("core_principles"), ListText(Prop(technique, "target_conditions")), json("techniques_practices"),
      FormText(Prop(technique, "contraindications")), json("evaluation_schema"), json("report_template"),
      FormText(Prop(technique, "id_key")))
  }

  /** The array of strings `items`. */
  function Strings(items: seq<string>): (v: Json)
    ensures v.JArr? && |v.items| == |items|
    ensures forall k :: 0 <= k < |items| ==> v.items[k] == JStr(items[k])
  {
    JArr(seq(|items|, k requires 0 <= k < |items| => JStr(items[k])))
  }

  /**
    Editing a technique whose list field holds plain items and submitting
    the form unchanged sends the same list back; an empty list comes back as
    null.
   */
  lemma ListFieldRoundTrip(items: seq<string>)
    requires forall k :: 0 <= k < |items| ==> PlainItem(items[k])
    ensures items != [] ==> TargetConditions(ListText(Strings(items))) == Strings(items)
    ensures items == [] ==> TargetConditions(ListText(Strings(items))) == JNull
  {
    ListTextOfStrings(items);
    if items != [] {
      ParseJoinRoundTrip(items);
      JoinNotBlank(items);
    }
  }

  /** The edit form writes an array of strings as the strings joined with ', '. */
  lemma ListTextOfStrings(items: seq<string>)
    ensures ListText(Strings(items)) == Text.Join(items, ", ")
  {
    var v := Strings(items);
    var texts := seq(|v.items|, k requires 0 <= k < |v.items| => ItemText(v.items[k]));
    forall k | 0 <= k < |items| ensures texts[k] == items[k] {
      assert v.items[k] == JStr(items[k]);
    }
    assert texts == items;
  }

  /**
    A JSON field survives edit-then-submit when `parse` reads back what
    `stringify` writes: a truthy value comes back, a falsy one comes back as
    null.
   */
  lemma JsonFieldRoundTrip(technique: Record, k: string, parse: string -> Option<Json>, stringify: Json -> string)
    requires Has(technique, k) ==> parse(stringify(technique[k])) == Some(technique[k]) && Text.Trim(stringify(technique[k])) != []
    ensures var text := if Has(technique, k) then stringify(technique[k]) else "";
      ParseJsonOrString(parse, text) == Parsed(if Has(technique, k) then technique[k] else JNull)
  {
  }

  /** A stored `id_key` that is a non-empty slug is kept by edit-then-submit. */
  lemma IdKeyRoundTrip(technique: Record, stringify: Json -> string)
    requires "id_key" in technique && technique["id_key"].JStr?
    requires technique["id_key"].s != "" && Slug(technique["id_key"].s) == technique["id_key"].s
    ensures IdKey(EditForm(technique, stringify)) == technique["id_key"].s
  {
  }

  // ---------------------------------------------------------------- search

  /** `field && field.toLowerCase().includes(term)` for a non-empty string field. */
  predicate FieldMatches(tech: Record, k: string, term: string) {
    NonEmptyStr(tech, k).Some? && Text.Contains(Text.Lower(NonEmptyStr(tech, k).value), term)
  }

  /** A technique the search keeps: its title, category or description contains the lower-cased term. */
  predicate SearchHit(tech: Record, term: string) {
    var t := Text.Lower(term);
    FieldMatches(tech, "title", t) || FieldMatches(tech, "category", t) || FieldMatches(tech, "description", t)
  }

  /** `filteredTechniques` */
  function FilterTechniques(techs: seq<Record>, term: string): seq<Record> {
    Seqs.Filter(techs, tech => SearchHit(tech, term))
  }

  /**
    The search keeps, in their order, exactly the techniques whose title,
    category or description contains the lower-cased term; with an empty
    term, exactly those with at least one of the three non-empty.
   */
  lemma FilterTechniquesSpec(techs: seq<Record>, term: string)
    ensures Seqs.IsSubsequence(FilterTechniques(techs, term), techs)
    ensures forall i :: 0 <= i < |FilterTechniques(techs, term)| ==> SearchHit(FilterTechniques(techs, term)[i], term)
    ensures forall i :: 0 <= i < |techs| && SearchHit(techs[i], term) ==> techs[i] in FilterTechniques(techs, term)
    ensures term == "" ==> forall tech :: SearchHit(tech, term) <==>
      NonEmptyStr(tech, "title").Some? || NonEmptyStr(tech, "category").Some? || NonEmptyStr(tech, "description").Some?
  {
    Seqs.FilterIsSubsequence(techs, tech => SearchHit(tech, term));
    Seqs.FilterMembers(techs, tech => SearchHit(tech, term));
    if term == "" {
      assert Text.Lower(term) == "";
      forall tech ensures SearchHit(tech, term) <==>
        NonEmptyStr(tech, "title").Some? || NonEmptyStr(tech, "category").Some? || NonEmptyStr(tech, "description").Some?
      {
        EmptyTermMatches(tech, "title");
        EmptyTermMatches(tech, "category");
        EmptyTermMatches(tech, "description");
      }
    }
  }

  /** Every non-empty string field contains the empty term. */
  lemma EmptyTermMatches(tech: Record, k: string)
    ensures FieldMatches(tech, k, "") <==> NonEmptyStr(tech, k).Some?
  {
    if NonEmptyStr(tech, k).Some? {
      assert Text.OccursAt(Text.Lower(NonEmptyStr(tech, k).value), "", 0);
      Text.OccursContains(Text.Lower(NonEmptyStr(tech, k).value), "", 0);
    }
  }

  // ---------------------------------------------------------------- seeding

  /** The counters of a seeding run. */
  datatype Counts = Counts(success: nat, fail: nat, skipped: nat)

  function Total(c: Counts): nat {
    c.success + c.fail + c.skipped
  }

  /** What a seeding run has left so far: the tables, the request log and the counters. */
  datatype Seeding = Seeding(tables: map<Table, seq<Record>>, calls: seq<Request>, counts: Counts)

  /** An initial technique the loop can key: it has an `id_key`, or a string title to slug. */
  predicate Seedable(entry: Record) {
    Has(entry, "id_key") || StrProp(entry, "title").Some?
  }

  /** `initialTech.id_key || slug(initialTech.title)` */
  function SeedKey(entry: Record): (key: Json)
    requires Seedable(entry)
    ensures key != JNull
  {
    if Has(entry, "id_key") then entry["id_key"] else JStr(Slug(StrProp(entry, "title").value))
  }

  /** `.eq('user_id', user.id).eq('id_key', key)` */
  function KeyFilter(uid: string, key: Json): Filter {
    [("user_id", JStr(uid)), ("id_key", key)]
  }

  /** `techToSave`: the entry's columns, its optional ones defaulting to null, with the owner and the key. */
  function SeedRecord(entry: Record, uid: string, key: Json): Record {
    var base := map[
      "evaluation_schema" := Or(Prop(entry, "evaluation_schema"), JNull),
      "report_template" := Or(Prop(entry, "report_template"), JNull),
      "core_principles" := Or(Prop(entry, "core_principles"), JNull),
      "techniques_practices" := Or(Prop(entry, "techniques_practices"), JNull),
      "target_conditions" := Or(Prop(entry, "target_conditions"), JNull),
      "contraindications" := Or(Prop(entry, "contraindications"), JNull),
      "user_id" := JStr(uid), "id_key" := key];
    Defined(Defined(Defined(Defined(base, "title", Get(entry, "title")), "description", Get(entry, "description")),
                    "category", Get(entry, "category")), "type", Get(entry, "type"))
  }

  /** The row seeding stores for an entry: the saved record stamped by the insert at position `k`. */
  function SeededRow(entry: Record, uid: string, key: Json, k: nat, now: int): Record {
    Stamped(TechniquesService.TechniqueRecord(SeedRecord(entry, uid, key), uid), NewId(k), now)
  }

  /** How one initial entry is counted. */
  datatype Verdict = Saved | Failed | Skipped

  /** A counter incremented for a verdict: exactly the verdict's counter grows, by one. */
  function Tally(c: Counts, v: Verdict): (r: Counts)
    ensures Total(r) == Total(c) + 1
    ensures r.success >= c.success && r.fail >= c.fail && r.skipped >= c.skipped
    ensures (r.success > c.success <==> v.Saved?) && (r.fail > c.fail <==> v.Failed?)
      && (r.skipped > c.skipped <==> v.Skipped?)
  {
    match v
    case Saved => c.(success := c.success + 1)
    case Failed => c.(fail := c.fail + 1)
    case Skipped => c.(skipped := c.skipped + 1)
  }

  /** The state one turn leaves and its verdict. */
  datatype Turn = Turn(tables: map<Table, seq<Record>>, calls: seq<Request>, verdict: Verdict)

  /**
    One turn of the loop: the existence check (a failure, or several rows,
    counts as a failure), a skip when the key exists, otherwise the save,
    which counts as a success or a failure.
   */
  function SeedTurn(tables: map<Table, seq<Record>>, calls: seq<Request>, failures: map<nat, Error>,
                    uid: string, now: int, entry: Record): Turn
    requires Seedable(entry)
  {
    var f := KeyFilter(uid, SeedKey(entry));
    var found := Where(RowsIn(tables, KnowledgeBase), f);
    var checked := calls + [Request(GET, KnowledgeBase, f)];
    if |calls| in failures || |found| > 1 then Turn(tables, checked, Failed)
    else if |found| == 1 then Turn(tables, checked, Skipped)
    else
      var sent := checked + [Request(POST, KnowledgeBase, [])];
      if |checked| in failures then Turn(tables, sent, Failed)
      else
        var row := SeededRow(entry, uid, SeedKey(entry), |checked|, now);
        Turn(tables[KnowledgeBase := RowsIn(tables, KnowledgeBase) + [row]], sent, Saved)
  }

  /** The loop from entry `i` on. */
  function SeedFrom(tables: map<Table, seq<Record>>, calls: seq<Request>, failures: map<nat, Error>,
                    uid: string, now: int, entries: seq<Record>, i: nat, c: Counts): Seeding
    requires i <= |entries|
    requires forall k :: 0 <= k < |entries| ==> Seedable(entries[k])
    decreases |entries| - i
  {
    if i == |entries| then Seeding(tables, calls, c)
    else
      var t := SeedTurn(tables, calls, failures, uid, now, entries[i]);
      SeedFrom(t.tables, t.calls, failures, uid, now, entries, i + 1, Tally(c, t.verdict))
  }

  /**
    `handlePopulateInitialTechniques`: without a user nothing happens;
    otherwise each initial entry is checked, skipped or saved in turn, and
    the counters are returned.
   */
  method PopulateInitialTechniques(db: Store, user: Option<string>, now: int, entries: seq<Record>)
    returns (counts: Option<Counts>)
    requires forall k :: 0 <= k < |entries| ==> Seedable(entries[k])
    modifies db
    ensures user.None? ==> counts.None? && db.tables == old(db.tables) && db.calls == old(db.calls)
    ensures user.Some? ==>
      var r := SeedFrom(old(db.tables), old(db.calls), db.failures, user.value, now, entries, 0, Counts(0, 0, 0));
      counts == Some(r.counts) && db.tables == r.tables && db.calls == r.calls
  {
    if user.None? {
      return None;
    }
    var uid := user.value;
    var success, fail, skipped := 0, 0, 0;
    for k := 0 to |entries|
      invariant SeedFrom(db.tables, db.calls, db.failures, uid, now, entries, k, Counts(success, fail, skipped))
             == SeedFrom(old(db.tables), old(db.calls), db.failures, uid, now, entries, 0, Counts(0, 0, 0))
    {
      ghost var tables0, calls0, counts0 := db.tables, db.calls, Counts(success, fail, skipped);
      SeedFromTurn(tables0, calls0, db.failures, uid, now, entries, k, counts0);
      var verdict := SeedEntry(db, uid, now, entries[k]);
      match verdict {
        case Saved => success := success + 1;
        case Failed => fail := fail + 1;
        case Skipped => skipped := skipped + 1;
      }
      assert Counts(success, fail, skipped) == Tally(counts0, verdict);
    }
    return Some(Counts(success, fail, skipped));
  }

  /** The loop from entry `k` is its turn at `k`, then the loop from `k + 1`. */
  lemma SeedFromTurn(tables: map<Table, seq<Record>>, calls: seq<Request>, failures: map<nat, Error>,
                     uid: string, now: int, entries: seq<Record>, k: nat, c: Counts)
    requires k < |entries|
    requires forall j :: 0 <= j < |entries| ==> Seedable(entries[j])
    ensures var t := SeedTurn(tables, calls, failures, uid, now, entries[k]);
      SeedFrom(tables, calls, failures, uid, now, entries, k, c)
      == SeedFrom(t.tables, t.calls, failures, uid, now, entries, k + 1, Tally(c, t.verdict))
  {
  }

  /** The body of the loop for one entry: the existence check, then the save of a missing one. */
  method SeedEntry(db: Store, uid: string, now: int, entry: Record) returns (verdict: Verdict)
    requires Seedable(entry)
    modifies db
    ensures Turn(db.tables, db.calls, verdict) == SeedTurn(old(db.tables), old(db.calls), db.failures, uid, now, entry)
  {
    var key := SeedKey(entry);
    var existing, checkError := db.QueryMaybeSingle(KnowledgeBase, KeyFilter(uid, key));
    if checkError.Some? {
      return Failed;
    }
    if existing.Some? {
      return Skipped;
    }
    var data, error := TechniquesService.SaveTechnique(db, Some(uid), now, SeedRecord(entry, uid, key));
    verdict := if data.Some? then Saved else Failed;
  }

  /** Every initial entry is counted exactly once, as a success, a failure or a skip. */
  lemma {:induction false} SeedCounts(tables: map<Table, seq<Record>>, calls: seq<Request>, failures: map<nat, Error>,
                                      uid: string, now: int, entries: seq<Record>, i: nat, c: Counts)
    requires i <= |entries|
    requires forall k :: 0 <= k < |entries| ==> Seedable(entries[k])
    ensures Total(SeedFrom(tables, calls, failures, uid, now, entries, i, c).counts) == Total(c) + |entries| - i
    decreases |entries| - i
  {
    if i < |entries| {
      var t := SeedTurn(tables, calls, failures, uid, now, entries[i]);
      SeedFromTurn(tables, calls, failures, uid, now, entries, i, c);
      SeedCounts(t.tables, t.calls, failures, uid, now, entries, i + 1, Tally(c, t.verdict));
    }
  }

  /** The counters never go down. */
  lemma {:induction false} SeedCountersGrow(tables: map<Table, seq<Record>>, calls: seq<Request>, failures: map<nat, Error>,
                                            uid: string, now: int, entries: seq<Record>, i: nat, c: Counts)
    requires i <= |entries|
    requires forall k :: 0 <= k < |entries| ==> Seedable(entries[k])
    ensures var r := SeedFrom(tables, calls, failures, uid, now, entries, i, c).counts;
      c.success <= r.success && c.fail <= r.fail && c.skipped <= r.skipped
    decreases |entries| - i
  {
    if i < |entries| {
      var t := SeedTurn(tables, calls, failures, uid, now, entries[i]);
      SeedFromTurn(tables, calls, failures, uid, now, entries, i, c);
      SeedCountersGrow(t.tables, t.calls, failures, uid, now, entries, i + 1, Tally(c, t.verdict));
    }
  }

  /** A turn appends at most one row to the technique table, exactly when it saves, and touches no other table. */
  lemma TurnRows(tables: map<Table, seq<Record>>, calls: seq<Request>, failures: map<nat, Error>,
                 uid: string, now: int, entry: Record)
    requires Seedable(entry)
    ensures var t := SeedTurn(tables, calls, failures, uid, now, entry);
      RowsIn(tables, KnowledgeBase) <= RowsIn(t.tables, KnowledgeBase)
      && |RowsIn(t.tables, KnowledgeBase)| == |RowsIn(tables, KnowledgeBase)| + (if t.verdict.Saved? then 1 else 0)
      && (forall u :: u != KnowledgeBase ==> RowsIn(t.tables, u) == RowsIn(tables, u))
  {
  }

  /**
    Seeding only appends to the technique table, one row per success, and
    leaves every other table as it was.
   */
  lemma {:induction false} SeedRowsGrow(tables: map<Table, seq<Record>>, calls: seq<Request>, failures: map<nat, Error>,
                                        uid: string, now: int, entries: seq<Record>, i: nat, c: Counts)
    requires i <= |entries|
    requires forall k :: 0 <= k < |entries| ==> Seedable(entries[k])
    ensures var r := SeedFrom(tables, calls, failures, uid, now, entries, i, c);
      RowsIn(tables, KnowledgeBase) <= RowsIn(r.tables, KnowledgeBase)
      && |RowsIn(r.tables, KnowledgeBase)| + c.success == |RowsIn(tables, KnowledgeBase)| + r.counts.success
      && (forall u :: u != KnowledgeBase ==> RowsIn(r.tables, u) == RowsIn(tables, u))
    decreases |entries| - i
  {
    if i < |entries| {
      var t := SeedTurn(tables, calls, failures, uid, now, entries[i]);
      SeedFromTurn(tables, calls, failures, uid, now, entries, i, c);
      TurnRows(tables, calls, failures, uid, now, entries[i]);
      SeedRowsGrow(t.tables, t.calls, failures, uid, now, entries, i + 1, Tally(c, t.verdict));
    }
  }

  /** The row stored for an entry passes the existence check for that entry's key. */
  lemma SeededRowMatches(entry: Record, uid: string, k: nat, now: int)
    requires Seedable(entry)
    ensures Matches(SeededRow(entry, uid, SeedKey(entry), k, now), KeyFilter(uid, SeedKey(entry)))
  {
    var key := SeedKey(entry);
    var rec := TechniquesService.TechniqueRecord(SeedRecord(entry, uid, key), uid);
    assert rec["user_id"] == JStr(uid) && rec["id_key"] == key;
    Backend.StampedFields(rec, NewId(k), now);
  }

  /** A row a filter finds in a table is still found after rows are appended. */
  lemma WherePrefix(a: seq<Record>, b: seq<Record>, f: Filter)
    requires a <= b && Where(a, f) != []
    ensures Where(b, f) != []
  {
    assert b == a + b[|a|..];
    Seqs.FilterAppend(a, b[|a|..], row => Matches(row, f));
  }

  /** A turn that saves appends the entry's row; a turn that skips found the key and changed nothing. */
  lemma TurnCases(tables: map<Table, seq<Record>>, calls: seq<Request>, failures: map<nat, Error>,
                  uid: string, now: int, entry: Record)
    requires Seedable(entry)
    ensures var t := SeedTurn(tables, calls, failures, uid, now, entry);
      var rows := RowsIn(tables, KnowledgeBase);
      (t.verdict.Saved? ==> RowsIn(t.tables, KnowledgeBase) == rows + [SeededRow(entry, uid, SeedKey(entry), |calls| + 1, now)])
      && (t.verdict.Skipped? ==> t.tables == tables && Where(rows, KeyFilter(uid, SeedKey(entry))) != [])
  {
  }

  /** After a turn that is not a failure, the entry's key is in the technique table. */
  lemma TurnLeavesKey(tables: map<Table, seq<Record>>, calls: seq<Request>, failures: map<nat, Error>,
                      uid: string, now: int, entry: Record)
    requires Seedable(entry)
    requires !SeedTurn(tables, calls, failures, uid, now, entry).verdict.Failed?
    ensures Where(RowsIn(SeedTurn(tables, calls, failures, uid, now, entry).tables, KnowledgeBase), KeyFilter(uid, SeedKey(entry))) != []
  {
    var t := SeedTurn(tables, calls, failures, uid, now, entry);
    var f := KeyFilter(uid, SeedKey(entry));
    TurnCases(tables, calls, failures, uid, now, entry);
    if t.verdict.Saved? {
      var row := SeededRow(entry, uid, SeedKey(entry), |calls| + 1, now);
      SeededRowMatches(entry, uid, |calls| + 1, now);
      Seqs.FilterAppend(RowsIn(tables, KnowledgeBase), [row], r => Matches(r, f));
    }
  }

  /** After a run without a failure, the key of every entry is in the technique table. */
  lemma {:induction false} SeedKeysPresent(tables: map<Table, seq<Record>>, calls: seq<Request>, failures: map<nat, Error>,
                                           uid: string, now: int, entries: seq<Record>, i: nat, c: Counts)
    requires i <= |entries|
    requires forall k :: 0 <= k < |entries| ==> Seedable(entries[k])
    requires SeedFrom(tables, calls, failures, uid, now, entries, i, c).counts.fail == c.fail
    ensures forall j :: i <= j < |entries| ==>
      Where(RowsIn(SeedFrom(tables, calls, failures, uid, now, entries, i, c).tables, KnowledgeBase),
            KeyFilter(uid, SeedKey(entries[j]))) != []
    decreases |entries| - i
  {
    if i < |entries| {
      var t := SeedTurn(tables, calls, failures, uid, now, entries[i]);
      var c' := Tally(c, t.verdict);
      SeedFromTurn(tables, calls, failures, uid, now, entries, i, c);
      var r := SeedFrom(t.tables, t.calls, failures, uid, now, entries, i + 1, c');
      SeedCountersGrow(t.tables, t.calls, failures, uid, now, entries, i + 1, c');
      assert !t.verdict.Failed?;
      SeedKeysPresent(t.tables, t.calls, failures, uid, now, entries, i + 1, c');
      TurnLeavesKey(tables, calls, failures, uid, now, entries[i]);
      SeedRowsGrow(t.tables, t.calls, failures, uid, now, entries, i + 1, c');
      forall j | i <= j < |entries|
        ensures Where(RowsIn(r.tables, KnowledgeBase), KeyFilter(uid, SeedKey(entries[j]))) != []
      {
        if j == i {
          WherePrefix(RowsIn(t.tables, KnowledgeBase), RowsIn(r.tables, KnowledgeBase), KeyFilter(uid, SeedKey(entries[i])));
        }
      }
    }
  }

  /** When every entry's key is already in the table, a run saves nothing and changes no table. */
  lemma {:induction false} SeedNothingMissing(tables: map<Table, seq<Record>>, calls: seq<Request>, failures: map<nat, Error>,
                                              uid: string, now: int, entries: seq<Record>, i: nat, c: Counts)
    requires i <= |entries|
    requires forall k :: 0 <= k < |entries| ==> Seedable(entries[k])
    requires forall j :: i <= j < |entries| ==> Where(RowsIn(tables, KnowledgeBase), KeyFilter(uid, SeedKey(entries[j]))) != []
    ensures SeedFrom(tables, calls, failures, uid, now, entries, i, c).tables == tables
    ensures SeedFrom(tables, calls, failures, uid, now, entries, i, c).counts.success == c.success
    decreases |entries| - i
  {
    if i < |entries| {
      var t := SeedTurn(tables, calls, failures, uid, now, entries[i]);
      assert t.tables == tables && !t.verdict.Saved?;
      SeedNothingMissing(t.tables, t.calls, failures, uid, now, entries, i + 1, Tally(c, t.verdict));
    }
  }

  /**
    Seeding is idempotent: after a run in which nothing failed, a second run
    by the same user saves nothing and leaves every table as it was, however
    its own requests fare.
   */
  lemma SeedTwice(tables: map<Table, seq<Record>>, calls: seq<Request>, failures: map<nat, Error>,
                  failures2: map<nat, Error>, uid: string, now: int, now2: int, entries: seq<Record>)
    requires forall k :: 0 <= k < |entries| ==> Seedable(entries[k])
    requires SeedFrom(tables, calls, failures, uid, now, entries, 0, Counts(0, 0, 0)).counts.fail == 0
    ensures var first := SeedFrom(tables, calls, failures, uid, now, entries, 0, Counts(0, 0, 0));
      var second := SeedFrom(first.tables, first.calls, failures2, uid, now2, entries, 0, Counts(0, 0, 0));
      second.tables == first.tables && second.counts.success == 0
  {
    var first := SeedFrom(tables, calls, failures, uid, now, entries, 0, Counts(0, 0, 0));
    SeedKeysPresent(tables, calls, failures, uid, now, entries, 0, Counts(0, 0, 0));
    SeedNothingMissing(first.tables, first.calls, failures2, uid, now2, entries, 0, Counts(0, 0, 0));
  }
}

