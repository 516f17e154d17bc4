# 5D-Therapists — a verified model of the application logic

5D-Therapists is a single-page application for therapists. They keep a list
of patients. They run a "quantum" questionnaire whose analysis is stored per
patient. They keep a library of therapy techniques and evaluate a technique
on a patient. They move patients through six therapy phases, and they read
each patient's journey: a time-ordered log of what happened. All data lives
in a hosted Postgres backend.

This project models that application logic in Dafny. It covers the service
layer that writes and reads the backend, and the pages and hooks that derive
what is shown. The backend is an abstract store, `Backend.Store`, a class
with these fields:

- `tables`: one sequence of rows per table; a row is a `map<string, Json>`.
- `calls`: the log of every request sent, in order.
- `failures`: a failure oracle that says which request, by its position in
  the log, fails and with what error.

Because the request log is part of the state, the model can state the order
of writes and where a sequence of steps stops. It can also state which
failures abort a call and which only warn.

Further conventions:

- The signed-in user is a parameter `user: Option<string>`.
- The moment of a call is a parameter `now: int`. Timestamps are integers.
- A new row's id is derived from the position of its insert in the log.
- `JSON.parse` and `JSON.stringify` are function parameters.
- JavaScript values are `Values.Json`. `Values.Truthy`, `Values.Or` and
  `Values.Prop` give JavaScript's truthiness, `||` and property reads.

Modules:

| module | models |
|---|---|
| `PatientService` | `src/lib/services/patientService.js`: save, read, cascade delete, analysis flag, phase advance |
| `AnalysisService` | `src/lib/services/analysisService.js`: save an analysis (validate, insert, flag, log), list analyses |
| `JourneyService` | `src/lib/services/journeyService.js`: log a journey event, list events and evaluations |
| `TechniquesService` | `src/lib/services/techniquesService.js`: technique CRUD, save an evaluation and log it |
| `Timeline` | `src/components/results/PatientJourneyTimeline.jsx`: sorted events, details map, item texts |
| `ManageTechniques` | `src/pages/techniques/ManageTechniquesPage.jsx`: slug, form parsing, edit form, search, seeding loop |
| `Dashboard` | `src/hooks/useDashboardLogic.js`: load, counters, search, optimistic delete with rollback |
| `ResultsPage` | `src/hooks/useResultsPageLogic.js`: analyses sort, current analysis, load, phase update |
| `ResultsView` | `src/components/results/ResultsView.jsx`: valid-analysis predicates, which cards show, shown id |
| `TechniqueEvaluation` | `src/pages/techniques/TechniqueEvaluationPage.jsx`: field kinds, initial data, change, submit |
| `PatientCard` | `src/components/dashboard/PatientCard.jsx`: age, phase label, main action, delete confirmation |
| `QuantumPractices` | `src/pages/practices/QuantumPracticesPage.jsx`: practice filter, category options |
| `Reports` | `src/pages/reports/ReportsPage.jsx`: event heading, event details, patient list, report |
| `Questionnaire` | `src/components/quantumAnalysis/QuantumQuestionnaire.jsx`: shown answer, navigation buttons |

`Values`, `Text`, `Seqs` and `Backend` are the supporting layer:

- JavaScript values and their coercions.
- String operations (`toLowerCase`, `trim`, `split`, `join`, `includes`),
  with case mapping for Basic Latin and Latin-1 letters.
- Sequence filters, a stable insertion sort and de-duplication.
- The store with its queries (`.eq` filters, `.order`, `.single()` and
  `.maybeSingle()`).

The model keeps the source's quirks as written:

- The phase-advance patient update is filtered by `id` alone.
- The cascade's dependent-table deletes are not owner-scoped.
- A failed `phase_start` insert replies with the patient's id.
- Evaluation events carry `evaluationId`. The timeline's technique branch
  looks for `technique_evaluation_id`, so it never takes such an event.
- An analysis whose categories are `{}` is accepted by the save but is not
  displayable.

## Model

| member | source | states |
|---|---|---|
| PatientService.Normalized | src/lib/services/patientService.js:18-28 | An empty `birth_date` or `therapist_id` becomes null, and an absent `therapist_id` becomes null. Every other property, empty strings included, is kept. |
| PatientService.NormalizeRecord | src/lib/services/patientService.js:18-28 | The `forEach` clean-up loop yields exactly `Normalized` of its input. |
| PatientService.SavePatient | src/lib/services/patientService.js:5-63 | Without a user: error, no request, no change. Without `id`: one insert of the cleaned record with `created_at`, and the stored row is the reply. With `id`: one update of the row matching both `id` and owner. It succeeds iff that row is unique, and a failure changes nothing. |
| PatientService.TherapistName | src/lib/services/patientService.js:89-92 | The embedded therapist's name, or null when there is no therapist. |
| PatientService.WithTherapistName | src/lib/services/patientService.js:89-92 | Adds `therapistName` and keeps every other property. |
| PatientService.PatientsViewSpec | src/lib/services/patientService.js:76-92 | The enriched list has one entry per row, in order, with the row's own columns and its therapist's name. |
| PatientService.GetAllPatients | src/lib/services/patientService.js:66-95 | Without a user: `[]`, an error, no request. Otherwise one owner-scoped listing, newest `created_at` first, with `therapistName`. A failure gives `[]` and the error. No table changes. |
| PatientService.GetPatientById | src/lib/services/patientService.js:97-139 | A falsy id is refused before the user check or any query. Otherwise one owner-scoped single-row read. No such single row gives "not found or denied". No table changes. |
| PatientService.DeletePatientById | src/lib/services/patientService.js:141-214 | A falsy id or no user: error, no request, no change. Otherwise the cascade outcome. `success` holds iff there is no error. |
| PatientService.CascadeSteps | src/lib/services/patientService.js:151-199 | The cascade has four steps: events, evaluations and analyses by `patient_id`, then the patient row by `id` and owner. |
| PatientService.CascadeRun | src/lib/services/patientService.js:151-213 | The cascade from a step on, given the oracle, stopping at the first failing step. Proved in `CascadeRunTables`, `CascadeRunLog`, `CascadeRunError` and `CascadeStopsEarly`. |
| PatientService.CascadeRunTables | src/lib/services/patientService.js:151-213 | When the first `n` steps succeed, the tables are those `n` deletes applied in order. |
| PatientService.CascadeRunLog | src/lib/services/patientService.js:151-213 | When the first `n` steps succeed, the log gains those `n` deletes, then the failing one if there is one, and nothing after it. |
| PatientService.CascadeRunError | src/lib/services/patientService.js:151-213 | The reported error is the failing step's prefixed message, or none when every step succeeds. |
| PatientService.CascadeStopsEarly | src/lib/services/patientService.js:151-213 | Stopping after `n` steps leaves the tables of every later step untouched. |
| PatientService.CascadeComplete | src/lib/services/patientService.js:151-213 | A complete cascade leaves no event, evaluation or analysis of the patient and no own row with that id. |
| PatientService.UpdatePatientHasAnalysisFlag | src/lib/services/patientService.js:216-235 | Without a user: error, no change. Otherwise one owner-scoped update of `has_analysis` and `updated_at`. It succeeds iff the row is unique, and the reply is `{id, has_analysis}`. |
| PatientService.PhaseStartEvent | src/lib/services/patientService.js:277-284 | The new event is `phase_start` at `now`, with the description "Início da Fase n". |
| PatientService.UpdatePatientCurrentPhase | src/lib/services/patientService.js:237-318 | Each step's table change, request, reply and error is the phase outcome function's. |
| PatientService.StartPhase | src/lib/services/patientService.js:277-317 | The insert and the link step match the outcome function. |
| PatientService.PhaseOutcome | src/lib/services/patientService.js:237-318 | Every step of the phase advance given the oracle. Proved in `PhaseErrorOnlyAtStart`, `PhaseAuthoritativeSurvives`, `PhaseAdvanceEvents`, `PhaseAdvancePatient` and `PhaseInsertFailureRepliesPatientId`. |
| PatientService.PhaseErrorOnlyAtStart | src/lib/services/patientService.js:237-318 | An error is reported iff there is no user or the id-only patient update fails or misses the single row. Then nothing changes. Otherwise the reply carries `phase_start_date = now`. |
| PatientService.PhaseAdvanceEvents | src/lib/services/patientService.js:243-297 | After a full advance, the previous event's `phase_end_date` is `now`. The new event is appended last with `timestamp = now`, and the reply carries its id. |
| PatientService.PhaseAuthoritativeSurvives | src/lib/services/patientService.js:243-317 | Once the patient update succeeds, the call reports no error, and every row with the id keeps the new phase number and the start `now` whatever the closing, the insert and the link do. Such a row differs from the patched one at most in `current_phase_id_pk`; other rows are unchanged. |
| PatientService.PhaseStartPatients | src/lib/services/patientService.js:284-312 | The patients get the new event's id as `current_phase_id_pk` iff the insert and the link both succeed; otherwise they are unchanged. |
| PatientService.PhasePatchKept | src/lib/services/patientService.js:245-253 | Rows given the phase patch, with or without the later link, keep the phase number and its start; other rows are unchanged. |
| PatientService.PhaseAdvancePatient | src/lib/services/patientService.js:243-317 | After a full advance, every row with the id gets the phase number, the start `now` and the new event's id. Other rows are unchanged. |
| PatientService.PhaseInsertFailureRepliesPatientId | src/lib/services/patientService.js:286-298 | A failed event insert after a good patient update reports no error, appends no event, and replies with the patient's id. |
| PatientService.PhaseStartAppends | src/lib/services/patientService.js:277-297 | A successful insert appends the stamped event and replies with its id. |
| PatientService.PhaseStartLinks | src/lib/services/patientService.js:300-312 | A successful link sets `current_phase_id_pk` on the patient rows to the new event's id. |
| AnalysisService.ValidResultsCases | src/lib/services/analysisService.js:16-20 | Rejected results are exactly the falsy ones, the non-objects, and those whose `categories` is missing, null or a scalar. `{}` passes. |
| AnalysisService.AnalysisRecordFields | src/lib/services/analysisService.js:23-33 | The inserted row names the patient and the user, and carries the analysis's answers, results and recommendations. |
| AnalysisService.SaveQuantumAnalysis | src/lib/services/analysisService.js:7-58 | Each table change, request, reply and error equals the save's outcome function. |
| AnalysisService.AnalysisOutcome | src/lib/services/analysisService.js:7-58 | The tables, requests, reply and error of a save, given the oracle. Proved in `AnalysisErrors`, `AnalysisStepOrder`, `AnalysisStored`, `AnalysisFlagSet`, `AnalysisEventLogged` and `AnalysisFlagOnlyWarns`. |
| AnalysisService.AnalysisErrors | src/lib/services/analysisService.js:8-39 | No user or invalid results: error, no request, no change. Otherwise an error iff the insert fails, and then only the insert was sent and nothing changed. |
| AnalysisService.AnalysisStepOrder | src/lib/services/analysisService.js:23-54 | A saved analysis sends exactly the insert, then the flag update, then the event insert. |
| AnalysisService.AnalysisFlagSet | src/lib/services/analysisService.js:41-45 | After a successful insert, a flag update that succeeds on the user's one row with the id sets its `has_analysis` to true and its `updated_at`, and leaves the other patients alone. A failed or non-single update leaves the patients unchanged. |
| AnalysisService.AnalysisStored | src/lib/services/analysisService.js:23-57 | The stored analysis is the last row of its table and is the reply, whatever the flag and the event do. |
| AnalysisService.AnalysisRowFields | src/lib/services/analysisService.js:23-33 | The stored analysis has the generated id and keeps the patient, the owner and the results. |
| AnalysisService.AnalysisEventLogged | src/lib/services/analysisService.js:47-54 | If the event insert succeeds, exactly one event is appended. If it fails, the journey table is unchanged. |
| AnalysisService.AnalysisEventFields | src/lib/services/analysisService.js:47-54 | The event is `ANALYSIS_GENERATED`. It carries `analysisId` and `related_analysis_id`, both the new id, and the categories. |
| AnalysisService.AnalysisFlagOnlyWarns | src/lib/services/analysisService.js:41-45 | A flag failure changes neither the reply, nor the error, nor the requests sent. |
| AnalysisService.GetAllAnalysesForPatient | src/lib/services/analysisService.js:60-78 | The analyses are patient- and owner-scoped, newest first. No user or a failure gives `[]` and an error. |
| JourneyService.EventRecordFields | src/lib/services/journeyService.js:5-25 | The event row has exactly the journey columns: the caller's values, the user and `now`. The defaults are `{}` for the data and null for related ids and notes. |
| JourneyService.LogJourneyEvent | src/lib/services/journeyService.js:5-41 | Without a user: error, no request. Otherwise one insert. A failure gives no data and the error, and changes nothing. |
| JourneyService.GetAllJourneyEventsForPatient | src/lib/services/journeyService.js:43-61 | The events are patient- and user-scoped, newest `timestamp` first. No user or a failure gives `[]` and an error. |
| JourneyService.GetAllTechniqueEvaluationsForPatient | src/lib/services/journeyService.js:64-90 | The evaluations are scoped, carry the technique title, and are newest first. Code 42P01 gives `[]` and no error; any other failure gives `[]` and the error. |
| TechniquesService.GetAllTechniques | src/lib/services/techniquesService.js:7-24 | The user's techniques, ascending by title. No user or a failure gives `[]` and an error. |
| TechniquesService.GetTechniqueById | src/lib/services/techniquesService.js:26-47 | The user's technique with that id, or an error unless exactly one exists. |
| TechniquesService.TechniqueRecordFields | src/lib/services/techniquesService.js:56-60 | `user_id` is always the signed-in user. An update never writes `id`. Every other column is kept. |
| TechniquesService.SaveTechnique | src/lib/services/techniquesService.js:49-86 | A truthy `id` gives an update of the row matching `id` and owner, without `id`; otherwise an insert. A failure gives no data and no change. |
| TechniquesService.DeleteTechnique | src/lib/services/techniquesService.js:88-108 | One delete scoped by `id` and owner. No user: error, no request. |
| TechniquesService.DeleteTechniqueRemoves | src/lib/services/techniquesService.js:94-98 | None of the user's rows with that id remain, and every other row stays. |
| TechniquesService.SaveTechniqueEvaluation | src/lib/services/techniquesService.js:111-152 | Each table change, request, reply and error equals the evaluation outcome function. |
| TechniquesService.EvaluationOutcome | src/lib/services/techniquesService.js:111-152 | The tables, requests, reply and error of saving an evaluation, given the oracle. Proved in `EvaluationErrors`, `EvaluationStored`, `EvaluationEventAppended` and `EvaluationLogOnlyWarns`. |
| TechniquesService.EvaluationErrors | src/lib/services/techniquesService.js:112-133 | An error iff there is no user or the insert fails. Then no table changes and no event is logged. Otherwise the reply is the stored evaluation. |
| TechniquesService.EvaluationStored | src/lib/services/techniquesService.js:123-148 | The stored evaluation is the last row of its table, followed by exactly one journey insert. |
| TechniquesService.EvaluationEventAppended | src/lib/services/techniquesService.js:135-148 | If the journey insert succeeds, the journey table gains the event; if it fails, that table is unchanged. |
| TechniquesService.EvaluationLogOnlyWarns | src/lib/services/techniquesService.js:135-151 | A journey failure changes neither the reply nor the requests. |
| TechniquesService.EvaluationRecordFields | src/lib/services/techniquesService.js:118-121 | `therapist_id` is the signed-in user, and every other payload column is kept. |
| TechniquesService.EvaluationEventFields | src/lib/services/techniquesService.js:135-148 | The event is `TECHNIQUE_EVALUATION_COMPLETED` for the evaluation's patient. It links the technique and the evaluation, carries the notes, and names the evaluation `evaluationId`. |
| TechniquesService.GetEvaluationsForTechnique | src/lib/services/techniquesService.js:154-174 | The evaluations are scoped to patient, technique and user, newest first, with the title embedded. |
| Timeline.NewerFirstTotalPreorder | src/components/results/PatientJourneyTimeline.jsx:82 | The timeline comparator is a total preorder. |
| Timeline.SortedEvents | src/components/results/PatientJourneyTimeline.jsx:82 | A sorted copy of the events, newest instant first. Its properties are proved in `SortedEventsSpec`. |
| Timeline.SortedEventsSpec | src/components/results/PatientJourneyTimeline.jsx:82 | The sorted copy is a permutation of the events, non-increasing by instant, and stable for equal instants. |
| Timeline.FindById | src/components/results/PatientJourneyTimeline.jsx:85 | The first knowledge-base entry with the id, or none when there is no such entry. |
| Timeline.DetailsMap | src/components/results/PatientJourneyTimeline.jsx:84-91 | The `reduce` that stores each evaluation, with its technique title, under its id, later evaluations overwriting. Proved in `DetailsMapKeys` and `DetailsMapEntry`. |
| Timeline.DetailsMapKeys | src/components/results/PatientJourneyTimeline.jsx:84-91 | The details map has a key exactly for each evaluation id. |
| Timeline.DetailsMapEntry | src/components/results/PatientJourneyTimeline.jsx:84-91 | Under an id that no later evaluation shares, the map holds that evaluation plus its technique title. |
| Timeline.TechniqueTitleSpec | src/components/results/PatientJourneyTimeline.jsx:85-88 | The title is the matching entry's truthy title, else 'Técnica Desconhecida'. |
| Timeline.DefaultTitle | src/components/results/PatientJourneyTimeline.jsx:21-22 | The default title has one character per character of the type, with '_' as space, lower-cased, and its first character upper-cased. |
| Timeline.Render | src/components/results/PatientJourneyTimeline.jsx:65-110 | The empty-state card or the list of items. Proved in `RenderShape` and `RenderItem`. |
| Timeline.RenderShape | src/components/results/PatientJourneyTimeline.jsx:65-110 | A missing or empty list gives the empty-state card; otherwise one item per event. |
| Timeline.RenderItem | src/components/results/PatientJourneyTimeline.jsx:82-109 | Item `i` renders the `i`-th event of the sorted copy, with the details map and that event's date. |
| Timeline.EventItem | src/components/results/PatientJourneyTimeline.jsx:15-63 | One event's title, description and note line. Its branches are proved in `DefaultItem`, `AnalysisItem`, `TechniqueItemTitle`, `TechniqueItemUnknown`, `TechniqueItemDescription` and `ItemNote`. |
| Timeline.DefaultItem | src/components/results/PatientJourneyTimeline.jsx:21-23 | An event neither special branch takes gets the default title and "Evento registrado em" description. |
| Timeline.AnalysisItem | src/components/results/PatientJourneyTimeline.jsx:25-27 | An analysis event with `analysisId` gets the fixed title and the id's first 8 characters. |
| Timeline.TechniqueItemTitle | src/components/results/PatientJourneyTimeline.jsx:28-30 | An evaluation event whose id names a listed evaluation is titled with that evaluation's (non-empty) technique title. |
| Timeline.TechniqueItemUnknown | src/components/results/PatientJourneyTimeline.jsx:28-30 | An evaluation id missing from the map is titled 'Desconhecida'. |
| Timeline.TechniqueItemDescription | src/components/results/PatientJourneyTimeline.jsx:31-34 | The description is "Realizada em date.", plus the first 50 characters of `interpretacao_geral` iff that is truthy. |
| Timeline.ItemNote | src/components/results/PatientJourneyTimeline.jsx:57-59 | The note line shows iff `notes` is truthy. |
| Timeline.LoggedEvaluationKeys | src/lib/services/techniquesService.js:135-148 | A stored evaluation event has neither `analysisId` nor `technique_evaluation_id` in its data. |
| Timeline.LoggedEvaluationShowsDefault | src/components/results/PatientJourneyTimeline.jsx:28 | So the timeline shows such an event with the default title and description. |
| ManageTechniques.CollapseSpaces | src/pages/techniques/ManageTechniquesPage.jsx:183 | Every run of white space becomes one '_'. |
| ManageTechniques.CollapseSpacesNoSpace | src/pages/techniques/ManageTechniquesPage.jsx:183 | No white space is left after the runs are collapsed. |
| ManageTechniques.Slug | src/pages/techniques/ManageTechniquesPage.jsx:182-184 | Lower-case, collapse white-space runs to '_', drop every character outside `[A-Za-z0-9_-]`. Proved in `SlugChars`, `SlugIdempotent` and `SlugOfSlugChars`. |
| ManageTechniques.SlugChars | src/pages/techniques/ManageTechniquesPage.jsx:183-184 | A slug holds only ASCII letters, digits, '_' and '-', and no upper-case letter. |
| ManageTechniques.SlugIdempotent | src/pages/techniques/ManageTechniquesPage.jsx:183-184 | The slug of a slug is itself. |
| ManageTechniques.SlugOfSlugChars | src/pages/techniques/ManageTechniquesPage.jsx:183-184 | A text of lower-case slug characters is its own slug. |
| ManageTechniques.ParseJsonOrString | src/pages/techniques/ManageTechniquesPage.jsx:141-156 | Blank text gives null, good text gives its parse, and bad text gives the thrown error. |
| ManageTechniques.ParseArrayOrStringBlank | src/pages/techniques/ManageTechniquesPage.jsx:158-163 | The list is null exactly for empty or white-space text. |
| ManageTechniques.ParseArrayOrStringItems | src/pages/techniques/ManageTechniquesPage.jsx:158-163 | Every item is trimmed and non-empty. |
| ManageTechniques.ParseJoinRoundTrip | src/pages/techniques/ManageTechniquesPage.jsx:158-163 | Joining with ', ' and parsing back returns the list when the items are trimmed, non-empty and comma-free. |
| ManageTechniques.Submit | src/pages/techniques/ManageTechniquesPage.jsx:165-215 | The submission `handleSubmit` makes: aborted, rejected, or the record saved. Proved in `SubmitCases`, `SubmitKey` and `SubmitId`. |
| ManageTechniques.SubmitCases | src/pages/techniques/ManageTechniquesPage.jsx:165-215 | The submit saves iff every JSON field parses and the key is non-empty. A parse failure wins over an empty key. |
| ManageTechniques.FormRecord | src/pages/techniques/ManageTechniquesPage.jsx:192-205 | The record built from the form has no `id`, and its `id_key` is the form's key. |
| ManageTechniques.SubmitKey | src/pages/techniques/ManageTechniquesPage.jsx:182-204 | The saved `id_key` is a non-empty slug: of `id_key` when filled, else of the title. |
| ManageTechniques.SubmitId | src/pages/techniques/ManageTechniquesPage.jsx:192-193 | The saved record has an `id` iff the edited technique has one, and it is that id. |
| ManageTechniques.EditForm | src/pages/techniques/ManageTechniquesPage.jsx:217-233 | The form `handleEdit` fills from a stored technique. Its round trips with `Submit` are proved in `ListFieldRoundTrip`, `JsonFieldRoundTrip` and `IdKeyRoundTrip`. |
| ManageTechniques.FormText | src/pages/techniques/ManageTechniquesPage.jsx:220-230 | A falsy value shows as '' and a string as itself. |
| ManageTechniques.ListFieldRoundTrip | src/pages/techniques/ManageTechniquesPage.jsx:225 | Edit then submit unchanged returns a plain list, and an empty list as null. |
| ManageTechniques.ListTextOfStrings | src/pages/techniques/ManageTechniquesPage.jsx:225 | The edit form writes an array of strings joined with ', '. |
| ManageTechniques.JsonFieldRoundTrip | src/pages/techniques/ManageTechniquesPage.jsx:224-229 | If parse reads back what stringify writes, a truthy JSON field survives edit then submit, and a falsy one comes back null. |
| ManageTechniques.IdKeyRoundTrip | src/pages/techniques/ManageTechniquesPage.jsx:230 | A stored non-empty slug `id_key` is kept by edit then submit. |
| ManageTechniques.FilterTechniques | src/pages/techniques/ManageTechniquesPage.jsx:257-261 | The techniques the search keeps. Proved in `FilterTechniquesSpec`. |
| ManageTechniques.FilterTechniquesSpec | src/pages/techniques/ManageTechniquesPage.jsx:257-261 | The search keeps, in order, exactly the techniques whose title, category or description contains the lower-cased term. An empty term keeps those with one of the three non-empty. |
| ManageTechniques.SeedKey | src/pages/techniques/ManageTechniquesPage.jsx:74 | The key is the entry's truthy `id_key`, else the slug of its title. |
| ManageTechniques.Tally | src/pages/techniques/ManageTechniquesPage.jsx:62-116 | Exactly the verdict's counter grows, by one; the others stay. |
| ManageTechniques.SeedTurn | src/pages/techniques/ManageTechniquesPage.jsx:74-115 | One turn of the seeding loop: the existence check, then a skip or a save, and its verdict. Proved in `SeedEntry`, `TurnCases` and `SeededRowMatches`. |
| ManageTechniques.PopulateInitialTechniques | src/pages/techniques/ManageTechniquesPage.jsx:56-134 | Without a user, nothing. Otherwise the loop's tables, requests and counters equal the seeding function's. |
| ManageTechniques.SeedEntry | src/pages/techniques/ManageTechniquesPage.jsx:74-115 | One loop body matches one turn: check, then skip or save. |
| ManageTechniques.SeedCounts | src/pages/techniques/ManageTechniquesPage.jsx:73-116 | Every entry is counted exactly once, so the counters sum to the number of entries. |
| ManageTechniques.SeedCountersGrow | src/pages/techniques/ManageTechniquesPage.jsx:73-116 | The counters never go down. |
| ManageTechniques.SeedRowsGrow | src/pages/techniques/ManageTechniquesPage.jsx:73-116 | Seeding only appends to the technique table, one row per success, and leaves every other table unchanged. |
| ManageTechniques.SeededRowMatches | src/pages/techniques/ManageTechniquesPage.jsx:76-106 | A saved entry's row passes that entry's existence check. |
| ManageTechniques.TurnCases | src/pages/techniques/ManageTechniquesPage.jsx:76-115 | A saving turn appends the entry's row. A skipping turn found the key and changed nothing. |
| ManageTechniques.SeedKeysPresent | src/pages/techniques/ManageTechniquesPage.jsx:73-116 | After a run without failure, every entry's key is in the table. |
| ManageTechniques.SeedNothingMissing | src/pages/techniques/ManageTechniquesPage.jsx:76-92 | When every key is present, a run saves nothing and changes no table. |
| ManageTechniques.SeedTwice | src/pages/techniques/ManageTechniquesPage.jsx:56-134 | After a failure-free run, a second run by the same user saves nothing and changes no table. |
| Dashboard.StatsOf | src/hooks/useDashboardLogic.js:38-44 | The `total` and `withAnalysis` counters of a list. Proved in `StatsBounds` and `StatsOfEmpty`. |
| Dashboard.StatsBounds | src/hooks/useDashboardLogic.js:38-44 | `withAnalysis <= total`. It equals `total` iff every patient has the flag, and is 0 iff none has. |
| Dashboard.StatsOfEmpty | src/hooks/useDashboardLogic.js:21 | The counters of `[]` are the reset counters. |
| Dashboard.FilterPatients | src/hooks/useDashboardLogic.js:65-75 | The patients the search term selects, in list order. Proved in `FilterPatientsSpec` and `EmptySearch`. |
| Dashboard.FilterPatientsSpec | src/hooks/useDashboardLogic.js:65-75 | The filter keeps the order, and keeps exactly the patients whose name, e-mail or therapist name contains the lower-cased term. |
| Dashboard.EmptySearch | src/hooks/useDashboardLogic.js:65-75 | The empty term keeps exactly the patients with one of the three properties as a string. |
| Dashboard.Removed | src/hooks/useDashboardLogic.js:94-98 | The optimistic removal by id. Proved in `RemovedSpec`. |
| Dashboard.RemovedSpec | src/hooks/useDashboardLogic.js:94-98 | The optimistic removal drops exactly the patients with the id and keeps the others in order. An unlisted id changes nothing. |
| Dashboard.ErrorText | src/hooks/useDashboardLogic.js:31 | The banner is the fetch error's message, or the fixed text when that is empty. |
| Dashboard.Loaded | src/hooks/useDashboardLogic.js:16-59 | The state `loadData` leaves for a session and a fetch answer. Proved in `LoadedSpec` and `LoadCopiesList`. |
| Dashboard.LoadedSpec | src/hooks/useDashboardLogic.js:16-59 | Every load keeps the counters agreeing with the list, and keeps the term. The banner is up iff there was no session or the fetch failed, and then the list is empty. |
| Dashboard.LoadCopiesList | src/hooks/useDashboardLogic.js:34-36 | A successful load puts the fetched list into both the full and the visible list, whatever the term; the filter effect narrows it afterwards. |
| Dashboard.DeleteEffect | src/hooks/useDashboardLogic.js:93-120 | What `handleDeletePatient` leaves: the snapshot on failure, a reload on success. Stated by `Dashboard.DeletePatient`; `DeletedPatientGone` shows the reload lacks the patient. |
| Dashboard.DeletedPatientGone | src/hooks/useDashboardLogic.js:101-110 | After a successful cascade, the reloaded listing holds no patient with that id. |
| Dashboard.Dashboard.constructor | src/hooks/useDashboardLogic.js:9-14 | The hook starts loading, with nothing listed, no term and zero counters. |
| Dashboard.Dashboard.RefreshFilter | src/hooks/useDashboardLogic.js:65-75 | The visible list becomes the search over the full list, and nothing else changes. |
| Dashboard.Dashboard.SetSearchTerm | src/hooks/useDashboardLogic.js:65-75 | The term is set and the visible list follows it. |
| Dashboard.Dashboard.LoadData | src/hooks/useDashboardLogic.js:16-59 | The state after `loadData` is the load function of the answer. No request is sent without a session. |
| Dashboard.Dashboard.DeletePatient | src/hooks/useDashboardLogic.js:93-120 | An unlisted id changes nothing and sends nothing. On failure the state is the snapshot. On success the list is reloaded. |
| ResultsPage.SortedAnalyses | src/hooks/useResultsPageLogic.js:63 | The analyses newest first. Proved in `SortedAnalysesSpec`. |
| ResultsPage.SortedAnalysesSpec | src/hooks/useResultsPageLogic.js:63 | The sorted analyses are a permutation, non-increasing by `created_at`. |
| ResultsPage.CurrentAnalysis | src/hooks/useResultsPageLogic.js:66-83 | The newest analysis when it is displayable, else none. Proved in `CurrentAnalysisSpec` and `NoFallback`. |
| ResultsPage.CurrentAnalysisSpec | src/hooks/useResultsPageLogic.js:66-83 | The current analysis is a fetched one no older than any other. There is one iff the newest is displayable. |
| ResultsPage.NoFallback | src/hooks/useResultsPageLogic.js:66-83 | A non-displayable newest analysis leaves no current analysis, whatever the older ones hold. |
| ResultsPage.PhaseNumber | src/hooks/useResultsPageLogic.js:52 | The result is the patient's truthy phase number, else 1. |
| ResultsPage.PhaseNumberDefault | src/hooks/useResultsPageLogic.js:52 | A missing, null or zero phase shows as 1, and any other number is kept. |
| ResultsPage.Fetched | src/hooks/useResultsPageLogic.js:28-123 | The state `fetchData` leaves for the five answers, or for a throw. Proved in `FetchedSpec`. |
| ResultsPage.FetchedSpec | src/hooks/useResultsPageLogic.js:28-123 | A failed patient lookup only ends loading. A throw clears the patient and every list and keeps the phase shown. A success shows the patient with its phase number (1 by default), its phase start and its phase event, and each list as answered (`[]` when missing). The analyses are a permutation, newest first. The current analysis is the newest iff it is displayable. |
| ResultsPage.PhasePatchedSpec | src/hooks/useResultsPageLogic.js:133 | The three phase fields are set, and every other patient field is kept. |
| ResultsPage.ResultsPage.constructor | src/hooks/useResultsPageLogic.js:15-25 | The hook starts loading, with nothing fetched and phase 1. |
| ResultsPage.ResultsPage.FetchData | src/hooks/useResultsPageLogic.js:28-123 | The new state is the fetch function of the old state and the answers. |
| ResultsPage.ResultsPage.ShowPatient | src/hooks/useResultsPageLogic.js:50-54 | Sets the patient, its phase (1 by default), its start date and its phase pk. |
| ResultsPage.ResultsPage.ShowAnalyses | src/hooks/useResultsPageLogic.js:62-88 | Sets the sorted list, and the current analysis per the current-analysis rule. |
| ResultsPage.ResultsPage.HandlePhaseUpdate | src/hooks/useResultsPageLogic.js:129-134 | Sets the phase in view state and on the patient, and nothing else. |
| ResultsView.ValidAnalysis | src/components/results/ResultsView.jsx:31-32 | An analysis is displayable iff its results are an object whose `categories` has a key. Proved in `SavedAnalysisValidity` and `EmptyCategoriesSavedButInvalid`. |
| ResultsView.SavedAnalysisValidity | src/components/results/ResultsView.jsx:31 | For an analysis the save accepts, displayable means its categories have a key. |
| ResultsView.EmptyCategoriesSavedButInvalid | src/lib/services/analysisService.js:16 | An analysis with categories `{}` passes the save check but is not displayable. |
| ResultsView.Layout | src/components/results/ResultsView.jsx:69-139 | Which analysis cards the view renders. Proved in `LayoutSpec`. |
| ResultsView.LayoutSpec | src/components/results/ResultsView.jsx:69-139 | Charts show iff the current analysis is displayable, and "unavailable" iff it is not. The problem card shows iff there is no current analysis and the list is non-empty. The evolution chart shows iff some analysis is displayable, and its "unavailable" card iff the list is non-empty and none is. |
| ResultsView.CurrentGivesHistory | src/components/results/ResultsView.jsx:31-32 | A displayable current analysis from the list implies there is evolution history. |
| ResultsView.ShownId | src/components/results/ResultsView.jsx:50 | The id text shown for the current analysis. Proved in `ShownIdSpec`. |
| ResultsView.ShownIdSpec | src/components/results/ResultsView.jsx:50 | The shown id is the first 8 characters of a present id, else 'N/A'. |
| TechniqueEvaluation.KindOf | src/pages/techniques/TechniqueEvaluationPage.jsx:16-61 | The input kind the `switch` on the lower-cased type picks. Proved in `KindIgnoresCase` and `KindDefaults`. |
| TechniqueEvaluation.KindIgnoresCase | src/pages/techniques/TechniqueEvaluationPage.jsx:18 | The field kind depends on the type only up to case. |
| TechniqueEvaluation.KindDefaults | src/pages/techniques/TechniqueEvaluationPage.jsx:55-61 | A missing or unnamed type gets the default text input. |
| TechniqueEvaluation.Label | src/pages/techniques/TechniqueEvaluationPage.jsx:23 | `fieldConfig.label || fieldKey`. Proved in `LabelFallback`. |
| TechniqueEvaluation.LabelFallback | src/pages/techniques/TechniqueEvaluationPage.jsx:23 | The label is the config's truthy label, else the key. |
| TechniqueEvaluation.OptionValueSpec | src/pages/techniques/TechniqueEvaluationPage.jsx:50 | An option submits its truthy `value`, else itself. |
| TechniqueEvaluation.InitialData | src/pages/techniques/TechniqueEvaluationPage.jsx:124-129 | The keys are exactly the schema's, each set to its truthy `defaultValue` or ''. |
| TechniqueEvaluation.NonObjectSchemas | src/pages/techniques/TechniqueEvaluationPage.jsx:123-128 | An array schema gives each element under its index. A string schema gives '' under each character's index. A number or boolean schema gives no key. |
| TechniqueEvaluation.FormOrNotice | src/pages/techniques/TechniqueEvaluationPage.jsx:251-283 | With a technique selected, exactly one of the form and the notice shows; without one, neither. |
| TechniqueEvaluation.Payload | src/pages/techniques/TechniqueEvaluationPage.jsx:163-172 | The evaluation the page submits. Proved in `PayloadSpec`. |
| TechniqueEvaluation.PayloadSpec | src/pages/techniques/TechniqueEvaluationPage.jsx:163-172 | `evaluation_results` equals `evaluation_data`, both the page's data. The ids are the loaded records'. |
| TechniqueEvaluation.StoredPayloadFields | src/lib/services/techniquesService.js:118-127 | The stored row keeps the payload's data, results and ids, with the user as therapist. |
| TechniqueEvaluation.SubmittedEvaluationStored | src/pages/techniques/TechniqueEvaluationPage.jsx:155-182 | A stored submission carries the page's data as both data and results, the loaded ids, and the user as therapist. |
| TechniqueEvaluation.EvaluationPage.constructor | src/pages/techniques/TechniqueEvaluationPage.jsx:72-82 | The page starts with nothing loaded, empty data and empty notes. |
| TechniqueEvaluation.EvaluationPage.SelectTechnique | src/pages/techniques/TechniqueEvaluationPage.jsx:117-144 | No selection clears the technique and data. A found technique shows, with data keyed by its schema's `Object.keys` (an object's properties, an array's or a string's indices) and each key's `defaultValue` or ''; without a schema the data is `{}`. Not found clears the technique and keeps the data. |
| TechniqueEvaluation.EvaluationPage.HandleChange | src/pages/techniques/TechniqueEvaluationPage.jsx:147-153 | Only the named key changes, to `checked` for a checkbox or else the value. |
| TechniqueEvaluation.EvaluationPage.HandleSubmit | src/pages/techniques/TechniqueEvaluationPage.jsx:155-182 | Without a patient or technique nothing is sent. Otherwise the payload is saved, and submitting ends. |
| PatientCard.Age | src/components/dashboard/PatientCard.jsx:30-40 | 'N/A' iff there is no birth date. |
| PatientCard.AgeIsCompletedYears | src/components/dashboard/PatientCard.jsx:34-39 | The age is `n` iff the `n`-th anniversary is reached and the `n+1`-th is not. |
| PatientCard.AgeNotNegative | src/components/dashboard/PatientCard.jsx:34-39 | A birth date not in the future gives a non-negative age. |
| PatientCard.AgeOnBirthday | src/components/dashboard/PatientCard.jsx:34-39 | On the `n`-th birthday the age is `n`, and the day before it is `n-1`. |
| PatientCard.AgeMonotone | src/components/dashboard/PatientCard.jsx:34-39 | A later day never shows a smaller age. |
| PatientCard.PhaseLabel | src/components/dashboard/PatientCard.jsx:42-46 | The label is one of the six labels or 'Fase Desconhecida'. |
| PatientCard.PhaseLabelSpec | src/components/dashboard/PatientCard.jsx:42-46 | Phases 1..6 map in order. A falsy phase or `true` maps to phase 1. A value is unknown iff it is truthy, not `true`, and not 1..6. |
| PatientCard.PhaseLabelsDistinct | src/components/dashboard/PatientCard.jsx:42-46 | The six labels are distinct and differ from the unknown label. |
| PatientCard.MainActionCounted | src/components/dashboard/PatientCard.jsx:59 | The cards offering results number the dashboard's `withAnalysis`, and the rest number `total - withAnalysis`. |
| PatientCard.PatientCard.constructor | src/components/dashboard/PatientCard.jsx:27-28 | The card starts not deleting. |
| PatientCard.PatientCard.HandleDeleteConfirm | src/components/dashboard/PatientCard.jsx:48-57 | The dashboard's delete runs on the card's `patient.id`, and the card is no longer deleting afterwards. |
| QuantumPractices.SearchHit | src/pages/practices/QuantumPracticesPage.jsx:93-99 | A practice the search keeps: its title, description or a keyword contains the lower-cased term. |
| QuantumPractices.FilteredPractices | src/pages/practices/QuantumPracticesPage.jsx:86-102 | The category step, then the search step. Proved in `FilteredIsOneFilter` and `FilteredPracticesSpec`. |
| QuantumPractices.FilteredIsOneFilter | src/pages/practices/QuantumPracticesPage.jsx:86-102 | The two filter steps are one filter by "in category and search hit". |
| QuantumPractices.FilteredPracticesSpec | src/pages/practices/QuantumPracticesPage.jsx:86-102 | The result is a subsequence of the templates, and keeps a template iff it is shown. 'all' with no term keeps everything. |
| QuantumPractices.Categories | src/pages/practices/QuantumPracticesPage.jsx:105-108 | The category options. Proved in `CategoriesSpec` and `OptionShowsSome`. |
| QuantumPractices.CategoryNames | src/pages/practices/QuantumPracticesPage.jsx:106 | A name is listed iff some template has it as its category. |
| QuantumPractices.CategoriesSpec | src/pages/practices/QuantumPracticesPage.jsx:105-108 | The option values are exactly the template categories, distinct, in increasing order of first occurrence among the categories. Each caption is the value with its first character upper-cased. |
| QuantumPractices.OptionShowsSome | src/pages/practices/QuantumPracticesPage.jsx:86-108 | Choosing any offered category with no term shows at least one practice. |
| Reports.Heading | src/pages/reports/ReportsPage.jsx:69 | The heading of an event type. Proved in `HeadingShape`, `HeadingIdempotent` and `SnakeCaseHeading`. |
| Reports.CapitalizeWords | src/pages/reports/ReportsPage.jsx:69 | Upper-cases every word-initial character and keeps the rest, at the same length. |
| Reports.HeadingShape | src/pages/reports/ReportsPage.jsx:69 | The heading has the type's length and no '_'. A word start is upper-cased and every other character is lower-cased. |
| Reports.HeadingIdempotent | src/pages/reports/ReportsPage.jsx:69 | Heading a heading changes nothing. |
| Reports.SnakeCaseHeading | src/pages/reports/ReportsPage.jsx:69 | For an UPPER_SNAKE type, each '_' becomes a space, each word keeps its first letter, and the other letters are lower-cased. |
| Reports.EventDetails | src/pages/reports/ReportsPage.jsx:34-57 | What `renderEventData` shows for an event. Proved in `EventDetailsSpec`. |
| Reports.EventDetailsSpec | src/pages/reports/ReportsPage.jsx:34-57 | The summary shows iff the event is an analysis with categories. Its id is an 8-character-bounded prefix of the related id, and its names are the categories with the first letter upper-cased. |
| Reports.SelectedPatient | src/pages/reports/ReportsPage.jsx:125 | A selected patient is listed and has the id. There is none iff no listed patient has that id. |
| Reports.SelectedPatientFirst | src/pages/reports/ReportsPage.jsx:125 | The selected patient is the first one with the id, or none. |
| Reports.FailedFetchShowsEmptyReport | src/pages/reports/ReportsPage.jsx:112-121 | As written, a failed fetch leaves an empty report, not a cleared one. |
| Reports.ReportAfterFetch | src/pages/reports/ReportsPage.jsx:112-121 | As intended, the report is cleared iff the fetch reports an error. |
| Reports.ReportReadingsAgree | src/pages/reports/ReportsPage.jsx:112-121 | On success, the written and intended readings agree. |
| Reports.ReportContents | src/pages/reports/ReportsPage.jsx:105-123 | After a successful fetch, the report is exactly the user's events of the patient, newest first. |
| Reports.ReportsPage.constructor | src/pages/reports/ReportsPage.jsx:84-88 | The page starts with no patients, no choice, no report, and the patient list loading. |
| Reports.ReportsPage.FetchPatients | src/pages/reports/ReportsPage.jsx:90-103 | Without a session nothing happens. Otherwise the list is the listing's data (`[]` on failure) and loading ends. |
| Reports.ReportsPage.SelectPatient | src/pages/reports/ReportsPage.jsx:85 | Sets the chosen patient id. |
| Reports.ReportsPage.GenerateReport | src/pages/reports/ReportsPage.jsx:105-123 | Without a chosen patient nothing is fetched or changed. Otherwise the report is the intended reading of the answer (`ReportAfterFetch`). After a successful fetch that is also the code as written (`ReportAsWritten`). |
| Questionnaire.ShownAnswer | src/components/quantumAnalysis/QuantumQuestionnaire.jsx:43 | The shown value is truthy or "". |
| Questionnaire.ShownAnswerSpec | src/components/quantumAnalysis/QuantumQuestionnaire.jsx:43-44 | A set answer shows as stored and an unset one as "". After storing a choice, that question shows it and other questions are unchanged. |
| Questionnaire.Navigation | src/components/quantumAnalysis/QuantumQuestionnaire.jsx:73-106 | The navigation buttons rendered. Proved in `NavigationSpec` and `CanSubmit`. |
| Questionnaire.NavigationSpec | src/components/quantumAnalysis/QuantumQuestionnaire.jsx:73-106 | Previous always shows, disabled iff first tab or submitting. Exactly one of Next (not last tab) and Submit (last tab) shows. Submit is enabled iff complete and not submitting. |
| Questionnaire.CanSubmit | src/components/quantumAnalysis/QuantumQuestionnaire.jsx:93-96 | Submit is shown and enabled iff last tab, complete and not submitting. |

## Left out

- The backend client is modelled as the abstract store with a failure
  oracle. Sessions are a `user` parameter. `src/lib/supabaseClient.jsx` is
  not part of this model.
- Query builder calls are modelled only to the extent the services use
  them: `.eq`, `.order`, `.single()`, `.maybeSingle()` and an embedded
  `select` of one column.
- Toasts, `console` output, `navigate`, `window.confirm`, `window.print`,
  `navigator.share`, JSX markup, icons and animation are left out. They
  have no effect on the modelled state.
- Locale date formatting (`toLocaleDateString`, `toLocaleString`) is left
  out; the timeline takes the date text as a function parameter. Date
  parsing and time zones are also left out: instants are integers.
- Timeline.TimeOf: an event instant that is not a number reads as 0.
  `new Date` parsing of date strings is not modelled.
- ResultsPage.CreatedAt: a `created_at` that is not a number reads as 0,
  for the same reason.
- PatientCard.Age: takes the calendar date `(year, month, day)` of today
  and of the birth date. Parsing the birth-date string in a time zone is
  not modelled.
- The dashboard's `recentlyAdded` counter is left out, because it depends
  on the wall clock.
- Floating-point display (`Number(value).toFixed(0)` in the report) is left
  out.
- `Promise.all` in `fetchData` is modelled as the five answers it yields,
  or `None` when it throws. The concurrency is not modelled.
- `JSON.parse` and `JSON.stringify` are function parameters; their
  internals are not modelled.
- `src/lib/config/initialTechniqueSet.js` is not part of this model: the
  entries are a parameter of the seeding loop. The practice templates are
  likewise a parameter of the practice filter.
- The initial-load effect of the technique evaluation page
  (`TechniqueEvaluationPage.jsx:84-115`) is left out. It is a sequence of
  service reads already modelled in the services.
- The technique page's `loadTechniques`, `handleAddNew`, `handleDelete` and
  `handleInputChange` are left out. They reset the form or call the
  modelled services and reload.
- The dashboard's `handlePatientAction` and `handleAddNewPatient` are left
  out: they only navigate.
- TechniqueEvaluation.InitialData: requires schema entries that are not
  null. A null property or array element makes the source throw on
  `.defaultValue`.
- TechniqueEvaluation.EvaluationPage.SelectTechnique: requires a found
  technique's schema to have no null entry (`SchemaShaped`), for the same
  reason.
- Timeline.EventItem: requires a string event type and a string
  `analysisId`, and an interpretation that is a string when truthy
  (`Renderable`, `RenderableDetail`). Other values make the source throw.
- TechniqueEvaluation.KindOf: requires a config whose `type`, when
  present, is a string (`Dispatchable`). Otherwise `toLowerCase` throws.
- ResultsView.ShownId: requires a truthy id to be a string (`IdShowable`).
  Otherwise `substring` throws.
- QuantumPractices.Categories: requires every set category to be a string
  (`CategoriesAreStrings`). Otherwise `charAt` throws.
- QuantumPractices.SearchHit: a present title, description or keyword that
  is not a string counts as no match. The source would throw on
  `toLowerCase`.
- Dashboard.FilterPatients: a present `full_name`, `email` or
  `therapistName` that is not a string counts as no match. The source would
  throw on `toLowerCase`.
- ManageTechniques.FilterTechniques: a present title, category or
  description that is not a string counts as no match. The source would
  throw on `toLowerCase`.
- Text.Lower: `toLowerCase` and `toUpperCase` are modelled for Basic Latin
  and Latin-1 letters only. Other scripts' case mappings (Latin Extended,
  Greek, Cyrillic) are not modelled. Neither are mappings that change the
  length (`'ß'.toUpperCase()` is `"SS"`). Slugs, headings, titles, category
  captions and every search inherit this.
- Timeline.DetailsMap: keys are JSON ids. JavaScript converts a property key
  to a string, so ids `1` and `"1"` share one entry in the source and are
  distinct here.
- ManageTechniques.FormText: a truthy value that is not a string is shown
  as its display text. React's own rendering of an input value is not
  modelled.
- PatientCard.PhaseLabel: reads a numeric string or an array phase (which
  JavaScript's `-` would coerce to a number) as unknown.
- Reports.EventDetails: category names are a set, so the order of
  `Object.entries` is not modelled. A related analysis id that is not a
  string reads as absent.
- Reports.ReportsPage.GenerateReport: runs the intended reading of the
  answer. When the fetch fails, or there is no user, it clears the report,
  where the code as written shows an empty one (see "## Findings" and
  `Reports.FailedFetchShowsEmptyReport`).
- Reports.ReportsPage.FetchPatients: the session is a boolean; only its
  presence matters to the page.
- Dashboard.Removed: compares ids as JSON values (`===` on strings and
  numbers). Object identity is not modelled.
- Seeding an entry with neither an `id_key` nor a string title is excluded
  (`Seedable`), because the source throws on `title.toLowerCase()`.
- ManageTechniques.Submit: an explicit falsy `id` on the edited technique
  is sent as written (`SubmitId`). `saveTechnique` then inserts the record
  with that `id`, and the store keeps the given id rather than generating
  one. Database constraints on the `id` column are not modelled; the
  failure oracle stands for the database rejecting such an insert.

## Findings

| source | as written | input that shows it | evidently intended | confidence | as-written member | corrected member |
|---|---|---|---|---|---|---|
| src/pages/reports/ReportsPage.jsx:112-121 | `if (response.data)` decides between showing the report and the error branch. `getAllJourneyEventsForPatient` answers `data: []` on every failure (journeyService.js:45-46, 56-58), and an empty array is truthy, so the error branch that clears the report is unreachable. | Any failing journey query, or no signed-in user: the answer is `([], Some(error))`, and the page shows an empty report instead of clearing it. | A failed fetch clears the report (`reportData = null`) and reports the error. A successful one shows the events. | not executed | Reports.FailedFetchShowsEmptyReport | Reports.ReportAfterFetch |
