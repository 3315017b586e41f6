/**
 * The view controller: its session fields and its action handlers.
 *
 * Each handler assigns the fields in the order the app does and then paints
 * the screen; the value it returns is the `ViewModel` that `updateUI` paints.
 * Every handler is proved to leave the fields as the matching function of
 * module QuizSession says, so the lemmas proved there hold of the controller.
 */
module ElementQuizController {
  import CaseFold
  import opened QuizSession
  import opened QuizView

  class ViewController {
    var mode: Mode
    var state: State
    var answerIsCorrect: bool
    var correctAnswerCount: int
    var elementList: seq<string>
    var currentElementIndex: int

    /** The fields as one session value. */
    function Snapshot(): Session
      reads this
    {
      Session(mode, state, answerIsCorrect, correctAnswerCount, elementList, currentElementIndex)
    }

    /** Holds from `viewDidLoad` on. */
    ghost predicate Valid()
      reads this
    {
      Consistent(Snapshot())
    }

    /** The property initialisers: flash cards, a question, no score, an empty list. */
    constructor ()
      ensures Snapshot() == INITIAL
    {
      mode := FlashCard;
      state := Question;
      answerIsCorrect := false;
      correctAnswerCount := 0;
      elementList := [];
      currentElementIndex := 0;
    }

    /** `setupFlashCards`. */
    method SetupFlashCards()
      modifies this
      ensures Snapshot() == QuizSession.SetupFlashCards(old(Snapshot()))
    {
      elementList := FIXED_ELEMENT_LIST;
      state := Question;
      currentElementIndex := 0;
    }

    /** `setupQuiz`; the list becomes whichever ordering `shuffled()` picks. */
    method SetupQuiz()
      modifies this
      ensures IsShuffle(elementList)
      ensures Snapshot() == QuizSession.SetupQuiz(old(Snapshot()), elementList)
    {
      state := Question;
      currentElementIndex := 0;
      answerIsCorrect := false;
      correctAnswerCount := 0;
      assert IsShuffle(FIXED_ELEMENT_LIST);
      var order :| IsShuffle(order);
      elementList := order;
    }

    /** Assigning `mode`: its `didSet` observer resets the session for the mode and paints the screen. */
    method SetMode(m: Mode) returns (vm: ViewModel)
      modifies this
      ensures Valid() && mode == m
      ensures m == FlashCard ==> Snapshot() == EnterFlashCards(old(Snapshot()))
      ensures m == Quiz ==> IsShuffle(elementList) && Snapshot() == EnterQuiz(old(Snapshot()), elementList)
      ensures vm == View(Snapshot())
    {
      mode := m;
      match mode {
        case FlashCard =>
          SetupFlashCards();
        case Quiz =>
          SetupQuiz();
          ShuffleFacts(elementList);
      }
      vm := View(Snapshot());
    }

    /** `viewDidLoad`: the app starts on flash cards. */
    method ViewDidLoad() returns (vm: ViewModel)
      modifies this
      ensures Valid()
      ensures Snapshot() == EnterFlashCards(old(Snapshot()))
      ensures vm == View(Snapshot())
    {
      vm := SetMode(FlashCard);
    }

    /** `showAnswer`, the action of the show-answer button. */
    method ShowAnswer() returns (vm: ViewModel)
      requires Valid()
      modifies this
      ensures Valid()
      ensures Snapshot() == QuizSession.ShowAnswer(old(Snapshot()))
      ensures vm == View(Snapshot())
    {
      state := Answer;
      vm := View(Snapshot());
    }

    /** `nextElement`, the action of the next button. */
    method NextElement() returns (vm: ViewModel)
      requires Valid()
      modifies this
      ensures Valid()
      ensures Snapshot() == QuizSession.NextElement(old(Snapshot()))
      ensures vm == View(Snapshot())
    {
      currentElementIndex := currentElementIndex + 1;
      if currentElementIndex >= |elementList| {
        currentElementIndex := 0;
        if mode == Quiz {
          state := Score;
          vm := View(Snapshot());
          return;
        }
      }
      state := Question;
      vm := View(Snapshot());
    }

    /** `switchModes`, the action of the mode selector: segment 0 is flash cards, segment 1 the quiz. */
    method SwitchModes(selectedSegmentIndex: int) returns (vm: ViewModel)
      modifies this
      ensures Valid()
      ensures selectedSegmentIndex == 0 ==> Snapshot() == EnterFlashCards(old(Snapshot()))
      ensures selectedSegmentIndex != 0 ==>
                IsShuffle(elementList) && Snapshot() == EnterQuiz(old(Snapshot()), elementList)
      ensures vm == View(Snapshot())
    {
      if selectedSegmentIndex == 0 {
        vm := SetMode(FlashCard);
      } else {
        vm := SetMode(Quiz);
      }
    }

    /** `textFieldShouldReturn`: grade the typed text and show the answer; the Return key is always accepted. */
    method TextFieldShouldReturn(text: string) returns (accepted: bool, vm: ViewModel)
      requires Valid()
      modifies this
      ensures Valid()
      ensures Snapshot() == QuizSession.SubmitAnswer(old(Snapshot()), text)
      ensures accepted
      ensures vm == View(Snapshot())
    {
      if CaseFold.Lowercased(text) == CaseFold.Lowercased(elementList[currentElementIndex]) {
        answerIsCorrect := true;
        correctAnswerCount := correctAnswerCount + 1;
      } else {
        answerIsCorrect := false;
      }
      state := Answer;
      vm := View(Snapshot());
      accepted := true;
    }

    /** `scoreAlertDismissed`, the OK button of the score alert. */
    method ScoreAlertDismissed() returns (vm: ViewModel)
      modifies this
      ensures Valid()
      ensures Snapshot() == QuizSession.ScoreAlertDismissed(old(Snapshot()))
      ensures vm == View(Snapshot())
    {
      vm := SetMode(FlashCard);
    }
  }

  /**
   * A launched controller, taken through a flash card, into the quiz, through
   * a right answer, and back: what the screen shows at each step follows from
   * the handlers' contracts alone.
   */
  method Walkthrough() returns (launched: ViewModel, revealed: ViewModel, second: ViewModel,
                                asked: ViewModel, graded: ViewModel, back: ViewModel, kept: int)
    ensures launched.answerLabel == "?" && !launched.showAnswerButtonHidden
    ensures revealed.answerLabel == "Carbon"
    ensures second.answerLabel == "?" && second.nextButtonTitle == "Next Element"
    ensures asked.textField == Editable && !asked.nextButtonEnabled && asked.showAnswerButtonHidden
    ensures graded.answerLabel == CORRECT_LABEL && graded.textField == Locked && graded.nextButtonEnabled
    ensures back.answerLabel == "?" && back.textField == Hidden && kept == 1
  {
    var c := new ViewController();
    launched := c.ViewDidLoad();
    revealed := c.ShowAnswer();
    second := c.NextElement();
    asked := c.SwitchModes(1);
    var name := c.elementList[c.currentElementIndex];
    var accepted;
    accepted, graded := c.TextFieldShouldReturn(name);
    CaseFold.SameIgnoringCaseIsEquivalence(name, name, name);
    back := c.SwitchModes(0);
    kept := c.correctAnswerCount;
  }
}
