/**
  A patient's card on the dashboard (`PatientCard`): the age shown from the
  birth date, the label of the current phase, the main action offered, and
  the delete confirmation that hands the id to the dashboard.
 */
module PatientCard {
  import opened Values
  import opened Backend
  import Seqs
  import Dashboard

  /** A calendar date as `Date` reports it: year, month and day of the month. */
  datatype Date = Date(year: int, month: int, day: int)

  /** `a` comes strictly before `b` in calendar order. */
  predicate Before(a: Date, b: Date) {
    a.year < b.year
    || (a.year == b.year && (a.month < b.month || (a.month == b.month && a.day < b.day)))
  }

  /** The `n`-th anniversary of `birth`. */
  function Anniversary(birth: Date, n: int): Date {
    Date(birth.year + n, birth.month, birth.day)
  }

  /** What the card shows as the age: 'N/A' or a number of years. */
  datatype AgeText = NotAvailable | Years(n: int)

  /**
    `calculateAge(birthDate)` on `today`: 'N/A' without a birth date, else the
    year difference, one less while this year's birthday is still ahead.
   */
  function Age(today: Date, birth: Option<Date>): (r: AgeText)
    ensures r.NotAvailable? <==> birth.None?
  {
    match birth
    case None => NotAvailable
    case Some(b) =>
      var age := today.year - b.year;
      var monthDiff := today.month - b.month;
      if monthDiff < 0 || (monthDiff == 0 && today.day < b.day) then Years(age - 1) else Years(age)
  }

  /**
    The age is the number of completed years: the only `n` whose anniversary
    has been reached on `today` while the next one has not.
   */
  lemma AgeIsCompletedYears(today: Date, birth: Date, n: int)
    ensures Age(today, Some(birth)) == Years(n)
      <==> !Before(today, Anniversary(birth, n)) && Before(today, Anniversary(birth, n + 1))
  {
    if !Before(today, Anniversary(birth, n)) && Before(today, Anniversary(birth, n + 1)) {
      assert n <= today.year - birth.year <= n + 1;
    }
  }

  /** The age is never negative once the birth date has passed. */
  lemma AgeNotNegative(today: Date, birth: Date)
    requires !Before(today, birth)
    ensures Age(today, Some(birth)).n >= 0
  {
    AgeIsCompletedYears(today, birth, Age(today, Some(birth)).n);
    assert Anniversary(birth, 0) == birth;
  }

  /** On the `n`-th birthday the age is exactly `n`, and on any earlier day after the previous one it is `n - 1`. */
  lemma AgeOnBirthday(birth: Date, n: int, earlier: Date)
    requires Before(earlier, Anniversary(birth, n)) && !Before(earlier, Anniversary(birth, n - 1))
    ensures Age(Anniversary(birth, n), Some(birth)) == Years(n)
    ensures Age(earlier, Some(birth)) == Years(n - 1)
  {
    AgeIsCompletedYears(Anniversary(birth, n), birth, n);
    AgeIsCompletedYears(earlier, birth, n - 1);
  }

  /** A later day never shows a smaller age. */
  lemma AgeMonotone(birth: Date, t1: Date, t2: Date)
    requires !Before(t2, t1)
    ensures Age(t1, Some(birth)).n <= Age(t2, Some(birth)).n
  {
    var a1 := Age(t1, Some(birth)).n;
    var a2 := Age(t2, Some(birth)).n;
    AgeIsCompletedYears(t1, birth, a1);
    AgeIsCompletedYears(t2, birth, a2);
  }

  /** `phaseLabels` */
  const Labels: seq<string> := [
    "Fase 1: Liberação", "Fase 2: Regeneração", "Fase 3: Equilíbrio",
    "Fase 4: Vitalidade", "Fase 5: Integração", "Fase 6: Autonomia"
  ]

  const UnknownPhase := "Fase Desconhecida"

  /** `(n || 1) - 1` for a number or a boolean (`true` counts as 1); `None` for every other value, whose coercion to a number is not modelled. */
  function PhaseIndex(n: Json): Option<int> {
    match Or(n, JNum(1))
    case JNum(k) => Some(k - 1)
    case JBool(_) => Some(0)
    case _ => None
  }

  /** `phaseLabels[(patient.current_phase_number || 1) - 1] || "Fase Desconhecida"` */
  function PhaseLabel(patient: Record): (text: string)
    ensures text in Labels || text == UnknownPhase
  {
    match PhaseIndex(Prop(patient, "current_phase_number"))
    case Some(i) => if 0 <= i < |Labels| then Labels[i] else UnknownPhase
    case None => UnknownPhase
  }

  /**
    Phases 1 to 6 get their own labels in order; a missing, null or zero
    phase (any falsy value) is phase 1; `true` is phase 1; any other value is
    unknown.
   */
  lemma PhaseLabelSpec(patient: Record)
    ensures var n := Prop(patient, "current_phase_number");
      (n.JNum? && 1 <= n.n <= 6 ==> PhaseLabel(patient) == Labels[n.n - 1])
      && (!Truthy(n) ==> PhaseLabel(patient) == Labels[0])
      && (n.JNum? && (n.n < 0 || n.n > 6) ==> PhaseLabel(patient) == UnknownPhase)
      && (PhaseLabel(patient) == UnknownPhase <==> Truthy(n) && !n.JBool? && !(n.JNum? && 1 <= n.n <= 6))
  {
  }

  /** The labels are distinct and none of them is the unknown label, so the label tells the phase. */
  lemma PhaseLabelsDistinct()
    ensures Seqs.Distinct(Labels) && UnknownPhase !in Labels
  {
  }

  /** The card's main button. */
  datatype Action = ViewResults | Analyze

  /** `patient.has_analysis ? 'view_results' : 'analyze'` */
  function MainAction(patient: Record): Action {
    if Dashboard.HasAnalysis(patient) then ViewResults else Analyze
  }

  /**
    A card offers the results exactly for the patients the dashboard counts
    as analysed: over a loaded list, the cards offering the results number
    `withAnalysis`, and the others `total - withAnalysis`.
   */
  lemma MainActionCounted(patients: seq<Record>)
    ensures |Seqs.Filter(patients, p => MainAction(p) == ViewResults)| == Dashboard.StatsOf(patients).withAnalysis
    ensures |Seqs.Filter(patients, p => MainAction(p) == Analyze)|
         == Dashboard.StatsOf(patients).total - Dashboard.StatsOf(patients).withAnalysis
  {
    Seqs.FilterSame(patients, p => MainAction(p) == ViewResults, Dashboard.HasAnalysis);
    var analysed := Seqs.Filter(patients, Dashboard.HasAnalysis);
    var others := Seqs.Filter(patients, p => MainAction(p) == Analyze);
    Seqs.FilterPartition(patients, Dashboard.HasAnalysis, p => MainAction(p) == Analyze);
    assert |multiset(analysed)| + |multiset(others)| == |multiset(patients)|;
  }

  /** The card's own state: the patient it shows and whether a delete is in flight. */
  class PatientCard {
    const patient: Record
    var isDeleting: bool

    constructor (patient: Record)
      ensures this.patient == patient && !isDeleting
    {
      this.patient := patient;
      isDeleting := false;
    }

    /**
      `handleDeleteConfirm`: the dashboard's delete runs on the card's
      `patient.id` (absent when the patient has none), and the card is no
      longer deleting afterwards.
     */
    method HandleDeleteConfirm(board: Dashboard.Dashboard, db: Store, session: Json, user: Option<string>)
      modifies this, board, db
      ensures !isDeleting
      ensures Dashboard.DeleteEffect(old(board.State()), old(db.tables), old(db.calls), db.failures, session, user,
                                     Get(patient, "id"), board.State(), db.tables, db.calls)
    {
      isDeleting := true;
      board.DeletePatient(db, session, user, Get(patient, "id"));
      isDeleting := false;
    }
  }
}
