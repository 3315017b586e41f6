/**
 * What `updateUI` paints, as a value.
 *
 * `updateFlashCardUI` and `updateQuizUI` set widget properties from the
 * session fields alone; `ViewModel` records the outcome of those assignments
 * that the app's behaviour depends on.
 */
module QuizView {
  import opened QuizSession

  datatype Option<T> = None | Some(value: T)

  /**
   * The answer text field: `Hidden`; `Editable` (visible, enabled, cleared and
   * holding the keyboard); `Locked` (visible, disabled, keyboard dismissed).
   */
  datatype TextFieldView = Hidden | Editable | Locked

  /** The numbers of the "Quiz Score" alert: "Your score is <correct> out of <total>." */
  datatype ScoreReport = ScoreReport(correct: int, total: int)

  datatype ViewModel = ViewModel(
    answerLabel: string,
    nextButtonTitle: string,
    nextButtonEnabled: bool,
    textField: TextFieldView,
    showAnswerButtonHidden: bool,
    scoreAlert: Option<ScoreReport>)

  const CORRECT_LABEL := "Correct!"
  const CORRECTION_PREFIX := "\U{274C}\nCorrect Answer: "

  /** `updateFlashCardUI`. */
  function FlashCardView(state: State, elementName: string): (vm: ViewModel)
    // the show-answer button is the way forward; the text field is never offered
    ensures !vm.showAnswerButtonHidden && vm.textField == Hidden && vm.scoreAlert == None
    ensures vm.nextButtonEnabled && vm.nextButtonTitle == "Next Element"
    // the name is revealed in the answer state only
    ensures state == Answer ==> vm.answerLabel == elementName
    ensures state != Answer ==> vm.answerLabel == "?"
  {
    ViewModel(
      answerLabel := if state == Answer then elementName else "?",
      nextButtonTitle := "Next Element",
      nextButtonEnabled := true,
      textField := Hidden,
      showAnswerButtonHidden := false,
      scoreAlert := None)
  }

  /** `updateQuizUI`. */
  function QuizModeView(s: Session, elementName: string): (vm: ViewModel)
    ensures vm.showAnswerButtonHidden
    // one action at a time: type while asked, press Next once answered, read the alert at the end
    ensures vm.textField == Editable <==> s.state == Question
    ensures vm.textField == Locked <==> s.state == Answer
    ensures vm.nextButtonEnabled <==> s.state == Answer
    ensures vm.scoreAlert.Some? <==> s.state == Score
    ensures vm.scoreAlert.Some? ==>
              vm.scoreAlert.value == ScoreReport(s.correctAnswerCount, |s.elementList|)
    // the last question announces the score, whatever the state
    ensures vm.nextButtonTitle == "Show Score" <==> s.currentElementIndex == |s.elementList| - 1
    ensures vm.nextButtonTitle != "Show Score" ==> vm.nextButtonTitle == "Next Question"
    ensures s.state != Answer ==> vm.answerLabel == ""
    ensures s.state == Answer ==>
              vm.answerLabel == (if s.answerIsCorrect then CORRECT_LABEL else CORRECTION_PREFIX + elementName)
  {
    ViewModel(
      answerLabel := match s.state
        case Question => ""
        case Answer => if s.answerIsCorrect then CORRECT_LABEL else CORRECTION_PREFIX + elementName
        case Score => "",
      nextButtonTitle :=
        if s.currentElementIndex == |s.elementList| - 1 then "Show Score" else "Next Question",
      nextButtonEnabled := s.state == Answer,
      textField := match s.state
        case Question => Editable
        case Answer => Locked
        case Score => Hidden,
      showAnswerButtonHidden := true,
      scoreAlert :=
        if s.state == Score then Some(ScoreReport(s.correctAnswerCount, |s.elementList|)) else None)
  }

  /** `updateUI`: look up the current element and paint the screen for the mode. */
  function View(s: Session): (vm: ViewModel)
    requires IndexValid(s)
    // the show-answer button belongs to flash cards, the text field to the quiz
    ensures vm.showAnswerButtonHidden <==> s.mode == Quiz
    ensures s.mode == FlashCard ==> vm.textField == Hidden
    // next button
    ensures s.mode == FlashCard ==> vm.nextButtonEnabled && vm.nextButtonTitle == "Next Element"
    ensures s.mode == Quiz ==>
              (vm.nextButtonTitle == "Show Score" <==> s.currentElementIndex == |s.elementList| - 1)
    ensures s.mode == Quiz && vm.nextButtonTitle != "Show Score" ==> vm.nextButtonTitle == "Next Question"
    ensures s.mode == Quiz ==> (vm.nextButtonEnabled <==> s.state == Answer)
    // a quiz question can be answered only while it is asked
    ensures s.mode == Quiz ==> (vm.textField == Editable <==> s.state == Question)
    ensures s.mode == Quiz ==> (vm.textField == Locked <==> s.state == Answer)
    // the score alert
    ensures vm.scoreAlert.Some? <==> s.mode == Quiz && s.state == Score
    ensures vm.scoreAlert.Some? ==>
              vm.scoreAlert.value == ScoreReport(s.correctAnswerCount, |s.elementList|)
    // the answer label
    ensures s.mode == FlashCard ==>
              vm.answerLabel == (if s.state == Answer then CurrentElementName(s) else "?")
    ensures s.mode == Quiz && s.state != Answer ==> vm.answerLabel == ""
    ensures s.mode == Quiz && s.state == Answer ==>
              vm.answerLabel == (if s.answerIsCorrect then CORRECT_LABEL
                                 else CORRECTION_PREFIX + CurrentElementName(s))
  {
    var elementName := s.elementList[s.currentElementIndex];
    match s.mode
    case FlashCard => FlashCardView(s.state, elementName)
    case Quiz => QuizModeView(s, elementName)
  }

  /** A question never gives its answer away: in the question state the label is "?" or empty. */
  lemma QuestionHidesAnswer(s: Session)
    requires Consistent(s) && s.state == Question
    ensures View(s).answerLabel == "?" || View(s).answerLabel == ""
    ensures View(s).answerLabel != CurrentElementName(s)
  {
    ShuffleFacts(s.elementList);
    assert CurrentElementName(s) in FIXED_ELEMENT_LIST;
  }
}
