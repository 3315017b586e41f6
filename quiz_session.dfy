/**
 * The quiz session: the controller's fields as one value, and what each
 * action handler does to them.
 *
 * `Session` gathers `mode`, `state`, `answerIsCorrect`, `correctAnswerCount`,
 * `elementList` and `currentElementIndex`. Each function below is the effect of
 * one handler (or of one helper it calls) on that value; the class
 * `ViewController` in module ElementQuizController performs the same steps on
 * its fields and is proved to agree with these functions.
 */
module QuizSession {
  import opened CaseFold

  datatype Mode = FlashCard | Quiz

  datatype State = Question | Answer | Score

  /** The four elements, in flash-card order. */
  const FIXED_ELEMENT_LIST: seq<string> := ["Carbon", "Gold", "Chlorine", "Sodium"]

  /** An ordering of the four elements, as `shuffled()` may return it. */
  predicate IsShuffle(order: seq<string>) {
    multiset(order) == multiset(FIXED_ELEMENT_LIST)
  }

  type Shuffled = order: seq<string> | IsShuffle(order) witness ["Carbon", "Gold", "Chlorine", "Sodium"]

  datatype Session = Session(
    mode: Mode,
    state: State,
    answerIsCorrect: bool,
    correctAnswerCount: int,
    elementList: seq<string>,
    currentElementIndex: int)

  /** The fields as declared, before `viewDidLoad` runs: the list is still empty. */
  const INITIAL: Session := Session(FlashCard, Question, false, 0, [], 0)

  predicate IndexValid(s: Session) {
    0 <= s.currentElementIndex < |s.elementList|
  }

  /** `elementList[currentElementIndex]`, the element being asked or shown. */
  function CurrentElementName(s: Session): (name: string)
    requires IndexValid(s)
    ensures name in s.elementList
  {
    s.elementList[s.currentElementIndex]
  }

  /**
   * What holds of every session once a mode has been entered: the list is an
   * ordering of the four elements, the index is inside it, and flash-card mode
   * uses the fixed order and never shows the score.
   */
  predicate Consistent(s: Session) {
    && IsShuffle(s.elementList)
    && IndexValid(s)
    && (s.mode == FlashCard ==> s.elementList == FIXED_ELEMENT_LIST && s.state != Score)
  }

  /** A shuffle has exactly the four elements, each once. */
  lemma ShuffleFacts(order: seq<string>)
    requires IsShuffle(order)
    ensures |order| == |FIXED_ELEMENT_LIST| == 4
    ensures forall x :: x in order <==> x in FIXED_ELEMENT_LIST
  {
    assert |multiset(order)| == |order|;
    assert |multiset(FIXED_ELEMENT_LIST)| == 4;
    forall x ensures x in order <==> x in FIXED_ELEMENT_LIST {
      assert x in order <==> x in multiset(order);
      assert x in FIXED_ELEMENT_LIST <==> x in multiset(FIXED_ELEMENT_LIST);
    }
  }

  /** `setupFlashCards`: the fixed list, the first element, the question shown; the score is kept. */
  function SetupFlashCards(s: Session): (r: Session)
    ensures r.elementList == FIXED_ELEMENT_LIST
    ensures r.state == Question && r.currentElementIndex == 0
    ensures r.mode == s.mode
    ensures r.answerIsCorrect == s.answerIsCorrect && r.correctAnswerCount == s.correctAnswerCount
  {
    s.(elementList := FIXED_ELEMENT_LIST, state := Question, currentElementIndex := 0)
  }

  /** `setupQuiz`: a fresh ordering, the first element, the question shown, the score cleared. */
  function SetupQuiz(s: Session, order: Shuffled): (r: Session)
    ensures IsShuffle(r.elementList) && r.elementList == order
    ensures r.state == Question && r.currentElementIndex == 0
    ensures !r.answerIsCorrect && r.correctAnswerCount == 0
    ensures r.mode == s.mode
  {
    s.(state := Question, currentElementIndex := 0, answerIsCorrect := false,
       correctAnswerCount := 0, elementList := order)
  }

  /**
   * Assigning `mode = .flashCard`: the `didSet` observer runs `setupFlashCards`
   * on every assignment, also when the mode already was flash-card.
   */
  function EnterFlashCards(s: Session): (r: Session)
    ensures Consistent(r)
    ensures r.mode == FlashCard && r.state == Question && r.currentElementIndex == 0
    ensures r.elementList == FIXED_ELEMENT_LIST
    ensures r.answerIsCorrect == s.answerIsCorrect && r.correctAnswerCount == s.correctAnswerCount
  {
    SetupFlashCards(s.(mode := FlashCard))
  }

  /** Assigning `mode = .quiz`: the `didSet` observer runs `setupQuiz`, with `order` as the shuffle. */
  function EnterQuiz(s: Session, order: Shuffled): (r: Session)
    ensures Consistent(r)
    ensures r.mode == Quiz && r.state == Question && r.currentElementIndex == 0
    ensures r.elementList == order
    ensures !r.answerIsCorrect && r.correctAnswerCount == 0
  {
    ShuffleFacts(order);
    SetupQuiz(s.(mode := Quiz), order)
  }

  /** `switchModes`: segment 0 selects flash cards, any other segment the quiz. */
  function SwitchModes(s: Session, selectedSegment: int, order: Shuffled): (r: Session)
    ensures Consistent(r) && r.state == Question && r.currentElementIndex == 0
    ensures r.mode == (if selectedSegment == 0 then FlashCard else Quiz)
    ensures r.mode == Quiz ==> r.elementList == order && r.correctAnswerCount == 0 && !r.answerIsCorrect
    ensures r.mode == FlashCard ==> r.elementList == FIXED_ELEMENT_LIST
    ensures r.mode == FlashCard ==>
              r.answerIsCorrect == s.answerIsCorrect && r.correctAnswerCount == s.correctAnswerCount
  {
    if selectedSegment == 0 then EnterFlashCards(s) else EnterQuiz(s, order)
  }

  /** `showAnswer`: the answer is shown; nothing else changes. */
  function ShowAnswer(s: Session): (r: Session)
    ensures r.state == Answer
    ensures r.mode == s.mode && r.elementList == s.elementList
    ensures r.currentElementIndex == s.currentElementIndex
    ensures r.answerIsCorrect == s.answerIsCorrect && r.correctAnswerCount == s.correctAnswerCount
    ensures Consistent(s) ==> Consistent(r)
  {
    s.(state := Answer)
  }

  /**
   * `nextElement`: move to the next element, wrapping to the first after the
   * last one. A quiz that wraps goes to the score; everything else shows the
   * next question.
   */
  function NextElement(s: Session): (r: Session)
    ensures r.mode == s.mode && r.elementList == s.elementList
    ensures r.answerIsCorrect == s.answerIsCorrect && r.correctAnswerCount == s.correctAnswerCount
    ensures r.state == Question || r.state == Score
    ensures IndexValid(s) ==> IndexValid(r)
    ensures IndexValid(s) ==> r.currentElementIndex == (s.currentElementIndex + 1) % |s.elementList|
    ensures IndexValid(s) ==>
              (r.state == Score <==> s.mode == Quiz && s.currentElementIndex == |s.elementList| - 1)
    ensures Consistent(s) ==> Consistent(r)
  {
    var next := s.currentElementIndex + 1;
    if next >= |s.elementList| then
      if s.mode == Quiz then s.(currentElementIndex := 0, state := Score)
      else s.(currentElementIndex := 0, state := Question)
    else
      s.(currentElementIndex := next, state := Question)
  }

  /**
   * `textFieldShouldReturn`: grade the typed text against the current element,
   * ignoring case, count a correct answer, and show the answer.
   */
  function SubmitAnswer(s: Session, text: string): (r: Session)
    requires IndexValid(s)
    ensures r.answerIsCorrect <==> SameIgnoringCase(text, CurrentElementName(s))
    ensures r.correctAnswerCount == s.correctAnswerCount + (if r.answerIsCorrect then 1 else 0)
    ensures r.state == Answer
    ensures r.mode == s.mode && r.elementList == s.elementList
    ensures r.currentElementIndex == s.currentElementIndex
    ensures Consistent(s) ==> Consistent(r)
  {
    if Lowercased(text) == Lowercased(s.elementList[s.currentElementIndex]) then
      s.(answerIsCorrect := true, correctAnswerCount := s.correctAnswerCount + 1, state := Answer)
    else
      s.(answerIsCorrect := false, state := Answer)
  }

  /** `scoreAlertDismissed`: the OK button of the score alert goes back to flash cards. */
  function ScoreAlertDismissed(s: Session): (r: Session)
    ensures Consistent(r)
    ensures r.mode == FlashCard && r.state == Question && r.currentElementIndex == 0
    ensures r.elementList == FIXED_ELEMENT_LIST
    ensures r.answerIsCorrect == s.answerIsCorrect && r.correctAnswerCount == s.correctAnswerCount
  {
    EnterFlashCards(s)
  }

  /** `viewDidLoad` on the freshly created controller. */
  const LAUNCHED: Session := EnterFlashCards(INITIAL)

  /** After launch the app shows the first flash card, with nothing scored yet. */
  lemma LaunchState()
    ensures LAUNCHED == Session(FlashCard, Question, false, 0, FIXED_ELEMENT_LIST, 0)
    ensures Consistent(LAUNCHED)
  {
  }

  /** Showing the answer twice is showing it once. */
  lemma ShowAnswerIdempotent(s: Session)
    ensures ShowAnswer(ShowAnswer(s)) == ShowAnswer(s)
  {
  }

  /** Flash cards wrap from the last element back to the first question, never to the score. */
  lemma FlashCardsWrapToQuestion(s: Session)
    requires Consistent(s) && s.mode == FlashCard
    requires s.currentElementIndex == |s.elementList| - 1
    ensures NextElement(s).state == Question && NextElement(s).currentElementIndex == 0
  {
  }

  /** Four calls of `nextElement` from a consistent flash-card session come back to the same element. */
  lemma {:induction false} FlashCardsCycle(s: Session)
    requires Consistent(s) && s.mode == FlashCard
    ensures NextElement(NextElement(NextElement(NextElement(s)))).currentElementIndex == s.currentElementIndex
  {
    ShuffleFacts(s.elementList);
  }
}
