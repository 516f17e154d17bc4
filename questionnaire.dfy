/**
  One tab of the analysis questionnaire (`QuantumQuestionnaire`): the answer
  each question shows, the answer a choice reports, and which navigation
  buttons show and are enabled.
 */
module Questionnaire {
  import opened Values

  // ---------------------------------------------------------------- answers

  /** The property name `answers[q.id]` reads: the id converted to a string. */
  function AnswerKey(question: Record): string {
    Display(Prop(question, "id"))
  }

  /** `answers[q.id] || ""`: the value the radio group shows. */
  function ShownAnswer(answers: Record, question: Record): (v: Json)
    ensures Truthy(v) || v == JStr("")
  {
    Or(Prop(answers, AnswerKey(question)), JStr(""))
  }

  /** `onValueChange`: a choice reports the question's id and the chosen value. */
  function Choice(question: Record, value: string): (Json, string) {
    (Prop(question, "id"), value)
  }

  /**
    A stored answer that is set shows as it is and an unset one as the empty
    choice. Once the reported choice is stored under its question's key,
    that question shows the chosen (non-empty) value and every question with
    another key shows what it showed before.
   */
  lemma ShownAnswerSpec(answers: Record, question: Record, other: Record, value: string)
    requires value != ""
    ensures Has(answers, AnswerKey(question)) ==> ShownAnswer(answers, question) == answers[AnswerKey(question)]
    ensures !Has(answers, AnswerKey(question)) ==> ShownAnswer(answers, question) == JStr("")
    ensures var (id, v) := Choice(question, value);
      var stored := answers[Display(id) := JStr(v)];
      ShownAnswer(stored, question) == JStr(value)
      && (AnswerKey(other) != AnswerKey(question) ==> ShownAnswer(stored, other) == ShownAnswer(answers, other))
  {
  }

  // ---------------------------------------------------------------- navigation

  /** Where the tab is and what the page reports about the form. */
  datatype Props = Props(isFirstTab: bool, isLastTab: bool, isSubmitting: bool, isFormComplete: bool)

  /** A button: not rendered, or rendered and enabled or not. */
  datatype Button = Hidden | Shown(enabled: bool)

  /** The navigation row: previous, next and submit, and the submit caption. */
  datatype Controls = Controls(previous: Button, next: Button, submit: Button, submitCaption: string)

  const SubmittingCaption := "Submetendo..."
  const SubmitCaption := "Concluir Análise"

  /** The buttons the navigation row renders. */
  function Navigation(p: Props): Controls {
    Controls(
      Shown(!(p.isFirstTab || p.isSubmitting)),
      if !p.isLastTab then Shown(!p.isSubmitting) else Hidden,
      if p.isLastTab then Shown(!(p.isSubmitting || !p.isFormComplete)) else Hidden,
      if p.isSubmitting then SubmittingCaption else SubmitCaption)
  }

  /**
    Previous always shows and is disabled exactly on the first tab or while
    submitting; exactly one of next and submit shows, submit on the last tab;
    submit is enabled exactly when the form is complete and not being
    submitted; and while submitting no button is enabled.
   */
  lemma NavigationSpec(p: Props)
    ensures var c := Navigation(p);
      c.previous.Shown? && (!c.previous.enabled <==> p.isFirstTab || p.isSubmitting)
      && (c.next.Shown? <==> !p.isLastTab)
      && (c.submit.Shown? <==> p.isLastTab)
      && (c.next.Shown? != c.submit.Shown?)
      && (c.next.Shown? ==> (c.next.enabled <==> !p.isSubmitting))
      && (c.submit.Shown? ==> (c.submit.enabled <==> p.isFormComplete && !p.isSubmitting))
      && (p.isSubmitting ==> forall b :: b in [c.previous, c.next, c.submit] && b.Shown? ==> !b.enabled)
      && (c.submitCaption == SubmittingCaption <==> p.isSubmitting)
  {
    var c := Navigation(p);
    if p.isSubmitting {
      forall b | b in [c.previous, c.next, c.submit] && b.Shown? ensures !b.enabled {
      }
    }
  }

  /** On the last tab the form can be sent exactly when it is complete and not already being sent; elsewhere it cannot. */
  lemma CanSubmit(p: Props)
    ensures (Navigation(p).submit == Shown(true)) <==> p.isLastTab && p.isFormComplete && !p.isSubmitting
  {
  }
}
