/**
 * The quiz as a state machine driven by user actions.
 *
 * Each `Event` is one thing the user can do on the screen; `Step` runs the
 * handler it reaches. `Enabled` is the gating the screen itself imposes, read
 * off the view that `updateUI` painted: a hidden button cannot be tapped, a
 * disabled button or text field does not respond, and while the modal score
 * alert is up only its OK button does.
 */
module QuizEvents {
  import opened CaseFold
  import opened QuizSession
  import opened QuizView

  datatype Event =
    | ModeSelected(selectedSegment: int, order: Shuffled)  // `switchModes`; `order` is what `shuffled()` returns
    | ShowAnswerTapped                                     // `showAnswer`
    | NextTapped                                           // `nextElement`
    | AnswerReturned(text: string)                         // `textFieldShouldReturn`
    | ScoreAlertOk                                         // `scoreAlertDismissed`

  /** The handler an event reaches. */
  function Step(s: Session, e: Event): (r: Session)
    requires Consistent(s)
    ensures Consistent(r)
    // the score is shown only after a quiz wraps past its last element
    ensures r.state == Score ==>
              e.NextTapped? && s.mode == Quiz && s.currentElementIndex == |s.elementList| - 1
  {
    match e
    case ModeSelected(segment, order) => SwitchModes(s, segment, order)
    case ShowAnswerTapped => ShowAnswer(s)
    case NextTapped => NextElement(s)
    case AnswerReturned(text) => SubmitAnswer(s, text)
    case ScoreAlertOk => ScoreAlertDismissed(s)
  }

  /** Whether the screen painted for `s` lets the user perform `e`. */
  predicate Enabled(s: Session, e: Event)
    requires IndexValid(s)
    ensures e.ScoreAlertOk? ==> (Enabled(s, e) <==> s.mode == Quiz && s.state == Score)
    ensures e.ModeSelected? ==> (Enabled(s, e) <==> !(s.mode == Quiz && s.state == Score))
    ensures e.ShowAnswerTapped? ==> (Enabled(s, e) <==> s.mode == FlashCard)
    ensures e.NextTapped? ==> (Enabled(s, e) <==> s.mode == FlashCard || s.state == Answer)
    ensures e.AnswerReturned? ==> (Enabled(s, e) <==> s.mode == Quiz && s.state == Question)
  {
    var vm := View(s);
    match e
    case ScoreAlertOk => vm.scoreAlert.Some?
    case ModeSelected(_, _) => vm.scoreAlert.None?
    case ShowAnswerTapped => vm.scoreAlert.None? && !vm.showAnswerButtonHidden
    case NextTapped => vm.scoreAlert.None? && vm.nextButtonEnabled
    case AnswerReturned(_) => vm.scoreAlert.None? && vm.textField == Editable
  }

  /**
   * The bound on the score that the gating keeps: while the question at index k
   * is asked at most k answers were right, after it is answered at most k + 1,
   * and when the score is shown at most the number of elements. Flash-card
   * mode keeps the count the quiz left, so it stays within the list too.
   */
  predicate ScoreInvariant(s: Session) {
    && Consistent(s)
    && 0 <= s.correctAnswerCount <= |s.elementList|
    && (s.mode == Quiz && s.state == Question ==> s.correctAnswerCount <= s.currentElementIndex)
    && (s.mode == Quiz && s.state == Answer ==> s.correctAnswerCount <= s.currentElementIndex + 1)
    && (s.mode == Quiz && s.state == Score ==>
          s.correctAnswerCount <= |s.elementList| && s.currentElementIndex == 0)
  }

  /** Every action the screen allows keeps the score bound. */
  lemma StepKeepsScoreInvariant(s: Session, e: Event)
    requires ScoreInvariant(s) && Enabled(s, e)
    ensures ScoreInvariant(Step(s, e))
  {
    match e
    case ModeSelected(_, _) =>
    case ShowAnswerTapped =>
      assert s.mode == FlashCard;
    case NextTapped =>
      assert s.mode == Quiz ==> s.state == Answer;
    case AnswerReturned(_) =>
      assert s.mode == Quiz && s.state == Question;
    case ScoreAlertOk =>
  }

  /** The session after the events, one after the other. */
  function Run(s: Session, events: seq<Event>): (r: Session)
    requires Consistent(s)
    ensures Consistent(r)
    decreases |events|
  {
    if events == [] then s else Run(Step(s, events[0]), events[1..])
  }

  /** Every event is allowed by the screen it is performed on. */
  predicate GatedRun(s: Session, events: seq<Event>)
    requires Consistent(s)
    decreases |events|
  {
    events == [] || (Enabled(s, events[0]) && GatedRun(Step(s, events[0]), events[1..]))
  }

  lemma {:induction false} GatedRunKeepsScoreInvariant(s: Session, events: seq<Event>)
    requires ScoreInvariant(s) && GatedRun(s, events)
    ensures ScoreInvariant(Run(s, events))
    decreases |events|
  {
    if events != [] {
      StepKeepsScoreInvariant(s, events[0]);
      GatedRunKeepsScoreInvariant(Step(s, events[0]), events[1..]);
    }
  }

  /**
   * Whatever the user does after launch, a score alert never reports more
   * right answers than there are elements.
   */
  lemma ScoreNeverExceedsTotal(events: seq<Event>)
    requires GatedRun(LAUNCHED, events)
    ensures var vm := View(Run(LAUNCHED, events));
            vm.scoreAlert.Some? ==> 0 <= vm.scoreAlert.value.correct <= vm.scoreAlert.value.total
  {
    GatedRunKeepsScoreInvariant(LAUNCHED, events);
  }

  /**
   * Without the gating the bound fails: answering the first quiz question
   * five times over, which the locked text field prevents, and then pressing
   * next four times ends in a score of five out of four.
   */
  lemma UngatedAnswersOverflowScore()
    ensures var quiz := EnterQuiz(LAUNCHED, FIXED_ELEMENT_LIST);
            !Enabled(SubmitAnswer(quiz, "Carbon"), AnswerReturned("Carbon"))
    ensures var quiz := EnterQuiz(LAUNCHED, FIXED_ELEMENT_LIST);
            var answered := SubmitAnswer(SubmitAnswer(SubmitAnswer(SubmitAnswer(
                              SubmitAnswer(quiz, "Carbon"), "Carbon"), "Carbon"), "Carbon"), "Carbon");
            var r := NextElement(NextElement(NextElement(NextElement(answered))));
            r.state == Score && r.correctAnswerCount == 5 && |r.elementList| == 4
  {
    var quiz := EnterQuiz(LAUNCHED, FIXED_ELEMENT_LIST);
    SameIgnoringCaseIsEquivalence("Carbon", "Carbon", "Carbon");
    var a1 := SubmitAnswer(quiz, "Carbon");
    var a2 := SubmitAnswer(a1, "Carbon");
    var a3 := SubmitAnswer(a2, "Carbon");
    var a4 := SubmitAnswer(a3, "Carbon");
    var a5 := SubmitAnswer(a4, "Carbon");
    assert a5.correctAnswerCount == 5 && a5.currentElementIndex == 0 && a5.mode == Quiz;
    var n1 := NextElement(a5);
    var n2 := NextElement(n1);
    var n3 := NextElement(n2);
    assert n3.currentElementIndex == 3;
  }

  /** The events of a quiz played to the end: each answer typed in, then Next. */
  function AnswerAll(answers: seq<string>): (events: seq<Event>)
    ensures |events| == 2 * |answers|
    ensures forall i :: 0 <= i < |answers| ==>
              events[2 * i] == AnswerReturned(answers[i]) && events[2 * i + 1] == NextTapped
  {
    if answers == [] then []
    else [AnswerReturned(answers[0]), NextTapped] + AnswerAll(answers[1..])
  }

  /** How many answers match the names at the same position, ignoring case. */
  function CountMatches(answers: seq<string>, names: seq<string>): (n: int)
    requires |answers| <= |names|
    ensures 0 <= n <= |answers|
    ensures n == |answers| <==> forall i :: 0 <= i < |answers| ==> SameIgnoringCase(answers[i], names[i])
    ensures n == 0 <==> forall i :: 0 <= i < |answers| ==> !SameIgnoringCase(answers[i], names[i])
  {
    if answers == [] then 0
    else (if SameIgnoringCase(answers[0], names[0]) then 1 else 0) + CountMatches(answers[1..], names[1..])
  }

  /** A run that starts with `e` is `e` followed by the rest. */
  lemma RunCons(s: Session, e: Event, rest: seq<Event>)
    requires Consistent(s)
    ensures Run(s, [e] + rest) == Run(Step(s, e), rest)
    ensures GatedRun(s, [e] + rest) <==> Enabled(s, e) && GatedRun(Step(s, e), rest)
  {
    assert ([e] + rest)[0] == e && ([e] + rest)[1..] == rest;
  }

  /** Answering the question asked and pressing Next, before the rest of a run. */
  lemma AnswerThenNext(s: Session, answer: string, rest: seq<Event>)
    requires Consistent(s) && s.mode == Quiz && s.state == Question
    ensures var next := NextElement(SubmitAnswer(s, answer));
            && Run(s, [AnswerReturned(answer), NextTapped] + rest) == Run(next, rest)
            && (GatedRun(s, [AnswerReturned(answer), NextTapped] + rest) <==> GatedRun(next, rest))
  {
    var answered := SubmitAnswer(s, answer);
    var next := NextElement(answered);
    var tail := [NextTapped] + rest;
    assert [AnswerReturned(answer), NextTapped] + rest == [AnswerReturned(answer)] + tail;
    assert Step(s, AnswerReturned(answer)) == answered;
    assert Step(answered, NextTapped) == next;
    RunCons(s, AnswerReturned(answer), tail);
    RunCons(answered, NextTapped, rest);
    assert Run(answered, tail) == Run(next, rest);
  }

  /**
   * Playing the rest of a quiz from the question at index k with one answer
   * per remaining element is allowed by the screen throughout, ends on the
   * score at index 0, and adds exactly the number of right answers.
   */
  lemma {:induction false} QuizRoundScore(s: Session, answers: seq<string>)
    requires Consistent(s) && s.mode == Quiz && s.state == Question
    requires |answers| == |s.elementList| - s.currentElementIndex
    ensures GatedRun(s, AnswerAll(answers))
    ensures var r := Run(s, AnswerAll(answers));
            && r.mode == Quiz && r.state == Score && r.currentElementIndex == 0
            && r.elementList == s.elementList
            && r.correctAnswerCount ==
               s.correctAnswerCount + CountMatches(answers, s.elementList[s.currentElementIndex..])
    decreases |answers|
  {
    var names := s.elementList[s.currentElementIndex..];
    var next := NextElement(SubmitAnswer(s, answers[0]));
    var rest := AnswerAll(answers[1..]);
    assert AnswerAll(answers) == [AnswerReturned(answers[0]), NextTapped] + rest;
    AnswerThenNext(s, answers[0], rest);
    assert names[0] == CurrentElementName(s);
    if |answers| == 1 {
      assert rest == [];
    } else {
      QuizRoundScore(next, answers[1..]);
      assert names[1..] == next.elementList[next.currentElementIndex..];
    }
  }

  /** Entering the quiz and typing every name in the order asked scores four out of four. */
  lemma PerfectQuiz(s: Session, order: Shuffled)
    ensures GatedRun(EnterQuiz(s, order), AnswerAll(order))
    ensures var r := Run(EnterQuiz(s, order), AnswerAll(order));
            r.state == Score && r.correctAnswerCount == 4
  {
    var quiz := EnterQuiz(s, order);
    ShuffleFacts(order);
    assert quiz.elementList[0..] == order;
    forall i | 0 <= i < 4 ensures SameIgnoringCase(order[i], order[i]) {
      SameIgnoringCaseIsEquivalence(order[i], order[i], order[i]);
    }
    QuizRoundScore(quiz, order);
  }

  /** Entering the quiz and submitting an empty answer every time scores zero. */
  lemma BlankQuiz(s: Session, order: Shuffled)
    ensures GatedRun(EnterQuiz(s, order), AnswerAll(["", "", "", ""]))
    ensures var r := Run(EnterQuiz(s, order), AnswerAll(["", "", "", ""]));
            r.state == Score && r.correctAnswerCount == 0
  {
    var quiz := EnterQuiz(s, order);
    var blanks := ["", "", "", ""];
    ShuffleFacts(order);
    assert quiz.elementList[0..] == order;
    forall i | 0 <= i < 4 ensures !SameIgnoringCase(blanks[i], order[i]) {
      assert order[i] in FIXED_ELEMENT_LIST;
      LengthsDifferNoMatch(blanks[i], order[i]);
    }
    QuizRoundScore(quiz, blanks);
  }
}
