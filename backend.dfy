/**
  The hosted database as the services see it, through the query builder
  `from(table).select/insert/update/delete`, `.eq(column, value)`,
  `.order(column, { ascending })` and `.single()`/`.maybeSingle()`.

  A `Store` holds the rows of every table, the log of requests made so far
  and a failure oracle: the request at position `k` of the log fails with
  `failures[k]` when `k` is a key of that map, and then changes nothing.
 */
module Backend {
  import opened Values
  import Text
  import Seqs

  datatype Table =
    | Patients              // patients
    | Therapists            // therapists
    | QuantumAnalyses       // quantum_analyses
    | JourneyEvents         // patient_journey_events
    | TechniqueEvaluations  // technique_evaluations
    | KnowledgeBase         // therapy_knowledge_base

  /** The HTTP method of the request the query builder sends. */
  datatype Verb = GET | POST | PATCH | DELETE

  /** The `.eq(column, value)` filters of one request, all of which must hold. */
  type Filter = seq<(string, Json)>

  /** What the log records of a request: its kind, its table and its filters. */
  datatype Request = Request(verb: Verb, table: Table, filter: Filter)

  /** `.order(column, { ascending })`, or no `.order` at all. */
  datatype Order = Unordered | Asc(column: string) | Desc(column: string)

  /** The error `.single()` returns when the result does not have exactly one row. */
  const NotSingle := Error(Some("PGRST116"), "JSON object requested, multiple (or no) rows returned")

  /**
    A row passes `.eq(c, v)` when its column `c` equals `v`. A SQL comparison
    with null is never true, so a null or undefined filter value matches nothing.
   */
  predicate Matches(row: Record, f: Filter) {
    forall i :: 0 <= i < |f| ==> f[i].1 != JNull && f[i].0 in row && row[f[i].0] == f[i].1
  }

  /** The rows a filter selects, in table order. */
  function Where(rows: seq<Record>, f: Filter): seq<Record> {
    Seqs.Filter(rows, row => Matches(row, f))
  }

  /** A select finds exactly the rows that pass the filter. */
  lemma WhereSpec(rows: seq<Record>, f: Filter)
    ensures forall i :: 0 <= i < |Where(rows, f)| ==> Matches(Where(rows, f)[i], f) && Where(rows, f)[i] in rows
    ensures forall i :: 0 <= i < |rows| && Matches(rows[i], f) ==> rows[i] in Where(rows, f)
  {
    Seqs.FilterMembers(rows, row => Matches(row, f));
  }

  /** The rows a delete with this filter leaves. */
  function Without(rows: seq<Record>, f: Filter): seq<Record> {
    Seqs.Filter(rows, row => !Matches(row, f))
  }

  /** The rows after an update: every matching row gets the patch's columns, the others are unchanged. */
  function Patched(rows: seq<Record>, f: Filter, patch: Record): (r: seq<Record>)
    ensures |r| == |rows|
  {
    seq(|rows|, i requires 0 <= i < |rows| => if Matches(rows[i], f) then rows[i] + patch else rows[i])
  }

  /** After a delete no remaining row passes the filter, and the deleted and the kept rows together are the old rows. */
  lemma WithoutRemovesAll(rows: seq<Record>, f: Filter)
    ensures Where(Without(rows, f), f) == []
    ensures multiset(Where(rows, f)) + multiset(Without(rows, f)) == multiset(rows)
  {
    var w := Without(rows, f);
    Seqs.FilterMembers(rows, row => !Matches(row, f));
    Seqs.FilterNone(w, row => Matches(row, f));
    Seqs.FilterPartition(rows, row => Matches(row, f), row => !Matches(row, f));
  }

  /** A row the insert adds: the database fills `id` and `created_at` when the record lacks them. */
  function Stamped(rec: Record, newId: string, now: int): Record
  {
    var withId := if "id" in rec then rec else rec["id" := JStr(newId)];
    if "created_at" in withId then withId else withId["created_at" := JNum(now)]
  }

  /** The stored row keeps the record's columns and adds the generated `id` and `created_at` when it lacks them. */
  lemma StampedFields(rec: Record, newId: string, now: int)
    ensures var row := Stamped(rec, newId, now);
      (forall k :: k in rec ==> k in row && row[k] == rec[k])
      && row.Keys == rec.Keys + {"id", "created_at"}
      && ("id" !in rec ==> row["id"] == JStr(newId))
      && ("created_at" !in rec ==> row["created_at"] == JNum(now))
  {
  }

  /** The id the database gives the row inserted by the request at position `k` of the log. */
  function NewId(k: nat): (id: string)
    ensures |id| > 3 && id[..3] == "row"
  {
    "row" + Text.NatToString(k)
  }

  /** Distinct requests get distinct generated ids. */
  lemma NewIdInjective(j: nat, k: nat)
    requires j != k
    ensures NewId(j) != NewId(k)
  {
    if NewId(j) == NewId(k) {
      assert NewId(j)[3..] == Text.NatToString(j);
      assert NewId(k)[3..] == Text.NatToString(k);
      Text.NatToStringInjective(j, k);
    }
  }


  /**
    The order Postgres gives a column's values under `ascending: true`:
    numbers by value, strings by code point, and null after everything.
    A column holds one kind of value; across kinds the order is by kind.
   */
  predicate JsonLe(a: Json, b: Json) {
    if b.JNull? then true
    else if a.JNull? then false
    else if a.JNum? && b.JNum? then a.n <= b.n
    else if a.JStr? && b.JStr? then Text.StrLe(a.s, b.s)
    else Rank(a) <= Rank(b)
  }

  function Rank(a: Json): nat {
    if a.JNum? then 0 else if a.JStr? then 1 else 2
  }

  lemma JsonLeTotal(a: Json, b: Json)
    ensures JsonLe(a, b) || JsonLe(b, a)
  {
    if a.JStr? && b.JStr? {
      Text.StrLeTotal(a.s, b.s);
    }
  }

  lemma JsonLeTrans(a: Json, b: Json, c: Json)
    requires JsonLe(a, b) && JsonLe(b, c)
    ensures JsonLe(a, c)
  {
    if a.JStr? && b.JStr? && c.JStr? {
      Text.StrLeTrans(a.s, b.s, c.s);
    }
  }

  /** The comparison of two rows that `.order` sorts by: descending reverses it, so nulls come first. */
  function OrderLe(o: Order): (Record, Record) -> bool {
    match o
    case Unordered => (a: Record, b: Record) => true
    case Asc(c) => (a: Record, b: Record) => JsonLe(Prop(a, c), Prop(b, c))
    case Desc(c) => (a: Record, b: Record) => JsonLe(Prop(b, c), Prop(a, c))
  }

  /** Every `.order` is a consistent order on rows. */
  lemma OrderLeTotalPreorder(o: Order)
    ensures Seqs.TotalPreorder(OrderLe(o))
  {
    var le := OrderLe(o);
    forall a, b ensures le(a, b) || le(b, a) {
      if !o.Unordered? {
        JsonLeTotal(Prop(a, o.column), Prop(b, o.column));
      }
    }
    forall a, b, c | le(a, b) && le(b, c) ensures le(a, c) {
      if o.Asc? {
        JsonLeTrans(Prop(a, o.column), Prop(b, o.column), Prop(c, o.column));
      } else if o.Desc? {
        JsonLeTrans(Prop(c, o.column), Prop(b, o.column), Prop(a, o.column));
      }
    }
  }

  /** A select's result: the matching rows, sorted by the order, ties in table order. */
  function Selected(rows: seq<Record>, f: Filter, o: Order): seq<Record> {
    Seqs.SortBy(Where(rows, f), OrderLe(o))
  }

  /** A select returns exactly the matching rows, as a multiset, in the requested order. */
  lemma SelectedSpec(rows: seq<Record>, f: Filter, o: Order)
    ensures multiset(Selected(rows, f, o)) == multiset(Where(rows, f))
    ensures Seqs.SortedBy(Selected(rows, f, o), OrderLe(o))
    ensures forall i :: 0 <= i < |Selected(rows, f, o)| ==> Matches(Selected(rows, f, o)[i], f)
  {
    OrderLeTotalPreorder(o);
    WhereSpec(rows, f);
    Seqs.SortBySorted(Where(rows, f), OrderLe(o));
    var s := Selected(rows, f, o);
    forall i | 0 <= i < |s| ensures Matches(s[i], f) {
      assert s[i] in multiset(Where(rows, f));
    }
  }

  /**
    The embedded resource `name(column)` of a select: for each row, the
    `column` of the row of `targets` whose `id` is the row's `key`, or null
    when the key is null or names no row.
   */
  function Embedded(rows: seq<Record>, key: string, targets: seq<Record>, name: string, column: string)
    : (r: seq<Record>)
    ensures |r| == |rows|
    ensures forall i :: 0 <= i < |rows| ==> r[i] == rows[i][name := Lookup(Prop(rows[i], key), targets, column)]
  {
    seq(|rows|, i requires 0 <= i < |rows| => rows[i][name := Lookup(Prop(rows[i], key), targets, column)])
  }

  /** `{ column }` of the first target whose id is `id`, or null. */
  function Lookup(id: Json, targets: seq<Record>, column: string): (v: Json)
    ensures v != JNull <==> id != JNull && exists i :: 0 <= i < |targets| && Prop(targets[i], "id") == id
    decreases |targets|
  {
    if id == JNull || targets == [] then JNull
    else if Prop(targets[0], "id") == id then JObj(map[column := Prop(targets[0], column)])
    else
      var rest := Lookup(id, targets[1..], column);
      assert forall i :: 1 <= i < |targets| ==> targets[i] == targets[1..][i - 1];
      assert rest != JNull ==> exists i :: 0 <= i < |targets[1..]| && Prop(targets[1..][i], "id") == id;
      rest
  }

  /** The rows of table `t`; a table the map lacks is empty. */
  function RowsIn(tables: map<Table, seq<Record>>, t: Table): seq<Record> {
    if t in tables then tables[t] else []
  }

  /** `.select('c1, c2')`: the row cut down to the listed columns it has. */
  function Project(row: Record, columns: set<string>): (r: Record)
    ensures r.Keys == row.Keys * columns
    ensures forall c :: c in r ==> r[c] == row[c]
  {
    map c | c in row.Keys * columns :: row[c]
  }

  class Store {
    /** The rows of every table; a table not in the map is empty. */
    var tables: map<Table, seq<Record>>
    /** Every request made so far, in order. */
    var calls: seq<Request>
    /** The failure oracle: request number `k` fails with `failures[k]`. */
    const failures: map<nat, Error>

    constructor (tables0: map<Table, seq<Record>>, failures0: map<nat, Error>)
      ensures tables == tables0 && calls == [] && failures == failures0
    {
      tables := tables0;
      calls := [];
      failures := failures0;
    }

    function Rows(t: Table): seq<Record>
      reads this
    {
      RowsIn(tables, t)
    }

    /** The outcome the oracle gives request number `k`. */
    function FailureAt(k: nat): Option<Error> {
      if k in failures then Some(failures[k]) else None
    }

    /** `from(t).select('*').eq(...).order(...)`: on failure no rows and the error. */
    method Query(t: Table, f: Filter, o: Order) returns (rows: seq<Record>, err: Option<Error>)
      modifies this
      ensures calls == old(calls) + [Request(GET, t, f)]
      ensures tables == old(tables)
      ensures err == FailureAt(|old(calls)|)
      ensures rows == if err.Some? then [] else Selected(Rows(t), f, o)
    {
      err := FailureAt(|calls|);
      rows := if err.Some? then [] else Selected(Rows(t), f, o);
      calls := calls + [Request(GET, t, f)];
    }

    /** `from(t).select('*').eq(...).single()`: the one matching row, or an error. */
    method QuerySingle(t: Table, f: Filter) returns (row: Option<Record>, err: Option<Error>)
      modifies this
      ensures calls == old(calls) + [Request(GET, t, f)]
      ensures tables == old(tables)
      ensures FailureAt(|old(calls)|).Some? ==> row.None? && err == FailureAt(|old(calls)|)
      ensures FailureAt(|old(calls)|).None? && |Where(Rows(t), f)| == 1 ==> row == Some(Where(Rows(t), f)[0]) && err.None?
      ensures FailureAt(|old(calls)|).None? && |Where(Rows(t), f)| != 1 ==> row.None? && err == Some(NotSingle)
    {
      var found := Where(Rows(t), f);
      var failed := FailureAt(|calls|);
      if failed.Some? {
        row, err := None, failed;
      } else if |found| == 1 {
        row, err := Some(found[0]), None;
      } else {
        row, err := None, Some(NotSingle);
      }
      calls := calls + [Request(GET, t, f)];
    }

    /** `from(t).select('*').eq(...).maybeSingle()`: no row is not an error, several rows are. */
    method QueryMaybeSingle(t: Table, f: Filter) returns (row: Option<Record>, err: Option<Error>)
      modifies this
      ensures calls == old(calls) + [Request(GET, t, f)]
      ensures tables == old(tables)
      ensures FailureAt(|old(calls)|).Some? ==> row.None? && err == FailureAt(|old(calls)|)
      ensures FailureAt(|old(calls)|).None? && |Where(Rows(t), f)| <= 1 ==>
        err.None? && (row.Some? <==> |Where(Rows(t), f)| == 1) && (row.Some? ==> row.value == Where(Rows(t), f)[0])
      ensures FailureAt(|old(calls)|).None? && |Where(Rows(t), f)| > 1 ==> row.None? && err == Some(NotSingle)
    {
      var found := Where(Rows(t), f);
      var failed := FailureAt(|calls|);
      if failed.Some? {
        row, err := None, failed;
      } else if |found| == 0 {
        row, err := None, None;
      } else if |found| == 1 {
        row, err := Some(found[0]), None;
      } else {
        row, err := None, Some(NotSingle);
      }
      calls := calls + [Request(GET, t, f)];
    }

    /** `from(t).insert(rec).select().single()`: the stored row, or an error and no change. */
    method Insert(t: Table, rec: Record, now: int) returns (row: Option<Record>, err: Option<Error>)
      modifies this
      ensures calls == old(calls) + [Request(POST, t, [])]
      ensures err == FailureAt(|old(calls)|)
      ensures err.Some? ==> row.None? && tables == old(tables)
      ensures err.None? ==>
        row == Some(Stamped(rec, NewId(|old(calls)|), now)) && tables == old(tables)[t := old(Rows(t)) + [row.value]]
    {
      err := FailureAt(|calls|);
      if err.Some? {
        row := None;
      } else {
        var stored := Stamped(rec, NewId(|calls|), now);
        row := Some(stored);
        tables := tables[t := Rows(t) + [stored]];
      }
      calls := calls + [Request(POST, t, [])];
    }

    /** `from(t).update(patch).eq(...)`: every matching row gets the patch. */
    method Update(t: Table, f: Filter, patch: Record) returns (err: Option<Error>)
      modifies this
      ensures calls == old(calls) + [Request(PATCH, t, f)]
      ensures err == FailureAt(|old(calls)|)
      ensures tables == if err.Some? then old(tables) else old(tables)[t := Patched(old(Rows(t)), f, patch)]
    {
      err := FailureAt(|calls|);
      if err.None? {
        tables := tables[t := Patched(Rows(t), f, patch)];
      }
      calls := calls + [Request(PATCH, t, f)];
    }

    /**
      `from(t).update(patch).eq(...).select().single()`: the request is undone
      and reports an error unless exactly one row matches.
     */
    method UpdateSingle(t: Table, f: Filter, patch: Record) returns (row: Option<Record>, err: Option<Error>)
      modifies this
      ensures calls == old(calls) + [Request(PATCH, t, f)]
      ensures FailureAt(|old(calls)|).Some? ==> row.None? && err == FailureAt(|old(calls)|) && tables == old(tables)
      ensures FailureAt(|old(calls)|).None? && |Where(old(Rows(t)), f)| != 1 ==>
        row.None? && err == Some(NotSingle) && tables == old(tables)
      ensures FailureAt(|old(calls)|).None? && |Where(old(Rows(t)), f)| == 1 ==>
        err.None? && row == Some(Where(old(Rows(t)), f)[0] + patch)
        && tables == old(tables)[t := Patched(old(Rows(t)), f, patch)]
    {
      var found := Where(Rows(t), f);
      var failed := FailureAt(|calls|);
      if failed.Some? {
        row, err := None, failed;
      } else if |found| == 1 {
        row, err := Some(found[0] + patch), None;
        tables := tables[t := Patched(Rows(t), f, patch)];
      } else {
        row, err := None, Some(NotSingle);
      }
      calls := calls + [Request(PATCH, t, f)];
    }

    /** `from(t).delete().eq(...)`: every matching row is removed. */
    method Delete(t: Table, f: Filter) returns (err: Option<Error>)
      modifies this
      ensures calls == old(calls) + [Request(DELETE, t, f)]
      ensures err == FailureAt(|old(calls)|)
      ensures tables == if err.Some? then old(tables) else old(tables)[t := Without(old(Rows(t)), f)]
    {
      err := FailureAt(|calls|);
      if err.None? {
        tables := tables[t := Without(Rows(t), f)];
      }
      calls := calls + [Request(DELETE, t, f)];
    }
  }
}
