# ElementQuiz — a verified model of the quiz controller

ElementQuiz is a one-screen iOS app that teaches four chemical element names
(Carbon, Gold, Chlorine, Sodium). It has two modes:

- In **flash-card** mode the user reveals the name of the pictured element on demand.
- In **quiz** mode the elements come in shuffled order. The user types each name, is told whether it was right, and sees a score alert at the end.

All of its logic lives in one UIKit view controller. This project models that
controller's state machine in Dafny:

- the fields `mode`, `state`, `elementList`, `currentElementIndex`, `answerIsCorrect` and `correctAnswerCount`;
- the `didSet` observer on `mode`;
- the action handlers;
- the display decisions of `updateUI`.

Files:

- `case_fold.dfy` (module `CaseFold`): the case-insensitive answer check, with ASCII lower-casing standing in for `String.lowercased()`.
- `quiz_session.dfy` (module `QuizSession`): the controller's fields as one `Session` value. Each handler's effect is a function on it. `Consistent` is the invariant every session keeps once a mode has been entered.
- `quiz_view.dfy` (module `QuizView`): `View`, what `updateUI` paints, as a `ViewModel` record. The record holds the answer label, the next button's title and enablement, the text field's condition, the show-answer button and the score alert.
- `quiz_events.dfy` (module `QuizEvents`): the app as a state machine over user events. `Enabled` is the gating the painted screen imposes: hidden or disabled controls do not respond, and while the modal score alert is up only its OK button does. This module proves that under this gating the score never exceeds the number of elements. It also proves that without the gating the bound fails, and it plays a whole quiz through.
- `view_controller.dfy` (module `ElementQuizController`): the class `ViewController`. It has the same fields and one method per handler. Each method assigns the fields as the app does and is proved to agree with the matching `QuizSession` function, so every lemma about those functions holds of the class.

Three behaviours of the code are easy to misread, and the model follows the code in each:

- Entering flash-card mode keeps `correctAnswerCount` and `answerIsCorrect` as they were. Only the list, the index and the state are reset.
- In quiz mode the next button's title is "Show Score" or "Next Question" in every state, the score state included.
- The wrong-answer label is "❌", a line break, then "Correct Answer: " and the name.

## Model

| member | source | states |
|---|---|---|
| CaseFold.LowerChar | ElementQuiz/ViewController.swift:223 | a folded character is never an upper-case letter; it differs from the input exactly when the input is an upper-case letter, and then it is that letter's lower-case partner |
| CaseFold.Lowercased | ElementQuiz/ViewController.swift:223 | lower-casing keeps the length, leaves no upper-case letter, and folds every position independently |
| CaseFold.LowercasedIdempotent | ElementQuiz/ViewController.swift:223 | lower-casing an already lower-cased string changes nothing |
| CaseFold.SameIgnoringCase | ElementQuiz/ViewController.swift:223 | an answer typed exactly as the name is accepted, and an accepted answer has the name's length |
| CaseFold.SameIgnoringCaseCharwise | ElementQuiz/ViewController.swift:223 | an answer matches a name if and only if both have the same length and agree at every position up to case |
| CaseFold.SameIgnoringCaseIsEquivalence | ElementQuiz/ViewController.swift:223 | the answer check is reflexive, symmetric and transitive |
| CaseFold.LowercasedMatches | ElementQuiz/ViewController.swift:223 | the all-lower-case spelling of a name is accepted for it |
| CaseFold.LengthsDifferNoMatch | ElementQuiz/ViewController.swift:223 | an answer of a different length from the name is never accepted |
| CaseFold.GoldExample | ElementQuiz/ViewController.swift:223 | "gold" and "GOLD" are accepted for "Gold"; "silver" is not |
| QuizSession.CurrentElementName | ElementQuiz/ViewController.swift:57-58 | the element looked up at the current index is one of the list's elements |
| QuizSession.ShuffleFacts | ElementQuiz/ViewController.swift:71-89 | any ordering `shuffled()` returns has exactly four entries, and they are exactly the four fixed element names |
| QuizSession.SetupFlashCards | ElementQuiz/ViewController.swift:77-81 | the list becomes exactly Carbon, Gold, Chlorine, Sodium in that order, the state becomes question and the index 0; mode, `answerIsCorrect` and `correctAnswerCount` are unchanged |
| QuizSession.SetupQuiz | ElementQuiz/ViewController.swift:84-90 | the list becomes the given permutation of the four names, the state becomes question, the index 0, `answerIsCorrect` false and the count 0; the mode is unchanged |
| QuizSession.EnterFlashCards | ElementQuiz/ViewController.swift:24-35 | assigning the flash-card mode, even when it is already the mode, yields a consistent session: flash-card mode, question state, index 0, the fixed list, and the score fields kept |
| QuizSession.EnterQuiz | ElementQuiz/ViewController.swift:24-35 | assigning the quiz mode yields a consistent session in quiz mode: question state, index 0, the shuffled list, `answerIsCorrect` false, count 0 |
| QuizSession.SwitchModes | ElementQuiz/ViewController.swift:205-211 | segment 0 enters flash cards and any other segment enters the quiz; either way the result is consistent, at index 0, in the question state. The quiz gets the given ordering with the score cleared; flash cards get the fixed list and keep `answerIsCorrect` and `correctAnswerCount` as they were |
| QuizSession.ShowAnswer | ElementQuiz/ViewController.swift:182-186 | the state becomes answer, nothing else changes, and consistency is kept |
| QuizSession.NextElement | ElementQuiz/ViewController.swift:188-203 | only the index and the state change. A valid index moves to (index + 1) mod count and stays valid. The result is the score state exactly when a quiz was at the last index, and the question state otherwise, flash-card wrap included. Consistency is kept |
| QuizSession.SubmitAnswer | ElementQuiz/ViewController.swift:214-237 | `answerIsCorrect` becomes true exactly when the typed text matches the current name ignoring case. The count grows by one exactly then and is unchanged otherwise. The state becomes answer and nothing else changes |
| QuizSession.ScoreAlertDismissed | ElementQuiz/ViewController.swift:252-254 | dismissing the score alert returns to flash-card mode with the fixed list, question state and index 0, and keeps `answerIsCorrect` and `correctAnswerCount` as they were |
| QuizSession.LaunchState | ElementQuiz/ViewController.swift:49-52 | after `viewDidLoad` the session is flash-card mode, question state, the fixed list, index 0, count 0, and it is consistent |
| QuizSession.ShowAnswerIdempotent | ElementQuiz/ViewController.swift:182-186 | showing the answer twice has the effect of showing it once |
| QuizSession.FlashCardsWrapToQuestion | ElementQuiz/ViewController.swift:188-203 | in flash-card mode, next from the last element goes to the first element's question, not to the score |
| QuizSession.FlashCardsCycle | ElementQuiz/ViewController.swift:188-192 | four presses of next in flash-card mode come back to the same element |
| QuizView.FlashCardView | ElementQuiz/ViewController.swift:93-111 | in flash-card mode the show-answer button is shown, the text field hidden, no alert up, and the next button enabled as "Next Element"; the label is the element's name in the answer state and "?" otherwise |
| QuizView.QuizModeView | ElementQuiz/ViewController.swift:114-180 | in quiz mode the show-answer button is hidden; the text field is editable exactly in the question state and locked exactly in the answer state; next is enabled exactly in the answer state and titled "Show Score" exactly at the last index, "Next Question" otherwise; the label is empty outside the answer state and "Correct!" or the correction plus the name in it; the score alert, with the count and the list length, shows exactly in the score state |
| QuizView.View | ElementQuiz/ViewController.swift:55-180 | the view `updateUI` paints: the show-answer button exactly in flash-card mode. In flash-card mode: a hidden text field, an enabled "Next Element" button, and the name shown in the answer state, "?" otherwise. In quiz mode: "Show Score" exactly at the last index and "Next Question" otherwise, whatever the state; next enabled exactly in the answer state; the text field editable exactly in the question state and locked exactly in the answer state. Labels in quiz mode: "" outside the answer state; in the answer state "Correct!" or the correction followed by the name. The score alert shows exactly in the quiz score state, with the count and the list length |
| QuizView.QuestionHidesAnswer | ElementQuiz/ViewController.swift:105-175 | in the question state the label is "?" or empty and never the element's name |
| QuizEvents.Step | ElementQuiz/ViewController.swift:182-254 | every handler keeps the session consistent; the score state is entered only by next in a quiz at the last index |
| QuizEvents.Enabled | ElementQuiz/ViewController.swift:124-178 | what the painted screen lets the user do: the OK button exactly while the quiz score alert is up, the mode selector exactly when it is not, the show-answer button exactly in flash-card mode, next exactly in flash-card mode or an answered quiz question, and Return exactly while a quiz question is asked |
| QuizEvents.StepKeepsScoreInvariant | ElementQuiz/ViewController.swift:124-145 | every action the screen allows keeps the count within bounds: never negative and never above the list length, at most the index while a quiz question is asked, at most index + 1 once it is answered, and at most the list length in the score state |
| QuizEvents.Run | ElementQuiz/ViewController.swift:182-254 | any sequence of handler calls from a consistent session leaves it consistent: the list a permutation of the four names, the index in range, flash-card mode in fixed order and never in the score state |
| QuizEvents.GatedRunKeepsScoreInvariant | ElementQuiz/ViewController.swift:124-145 | any sequence of allowed actions keeps the score bound |
| QuizEvents.ScoreNeverExceedsTotal | ElementQuiz/ViewController.swift:174-178 | whatever the user does after launch, the score alert reports a count between 0 and the number of elements |
| QuizEvents.UngatedAnswersOverflowScore | ElementQuiz/ViewController.swift:223-225 | without the gating the bound fails: answering the first question five times and then pressing next four times shows a score of 5 out of 4 |
| QuizEvents.CountMatches | ElementQuiz/ViewController.swift:223-225 | the number of right answers lies between 0 and the number of answers. It equals the number of answers exactly when every answer matches, and it is 0 exactly when none does |
| QuizEvents.QuizRoundScore | ElementQuiz/ViewController.swift:188-237 | answering every remaining question and pressing next after each is allowed throughout. It ends in the quiz score state at index 0 with the list unchanged, and adds exactly the number of right answers to the count |
| QuizEvents.PerfectQuiz | ElementQuiz/ViewController.swift:84-90 | entering the quiz and typing each name as asked ends on the score with 4 right |
| QuizEvents.BlankQuiz | ElementQuiz/ViewController.swift:84-90 | entering the quiz and returning an empty field each time ends on the score with 0 right |
| ElementQuizController.ViewController.constructor | ElementQuiz/ViewController.swift:24-74 | the fields start as declared: flash-card mode, question state, no score, an empty list, index 0 |
| ElementQuizController.ViewController.SetupFlashCards | ElementQuiz/ViewController.swift:77-81 | the fields become `QuizSession.SetupFlashCards` of their old values |
| ElementQuizController.ViewController.SetupQuiz | ElementQuiz/ViewController.swift:84-90 | the list becomes some permutation of the four names, picked nondeterministically, and the fields become `QuizSession.SetupQuiz` of their old values with that ordering |
| ElementQuizController.ViewController.SetMode | ElementQuiz/ViewController.swift:24-35 | assigning `mode` stores it, runs the matching setup, leaves the controller valid and returns the repainted view |
| ElementQuizController.ViewController.ViewDidLoad | ElementQuiz/ViewController.swift:49-52 | loading the view enters flash-card mode and establishes the invariant |
| ElementQuizController.ViewController.ShowAnswer | ElementQuiz/ViewController.swift:182-186 | the fields become `QuizSession.ShowAnswer` of their old values; the invariant is kept |
| ElementQuizController.ViewController.NextElement | ElementQuiz/ViewController.swift:188-203 | the increment, wrap and state assignment, with the early return for the quiz score, give `QuizSession.NextElement` of the old fields; the invariant is kept |
| ElementQuizController.ViewController.SwitchModes | ElementQuiz/ViewController.swift:205-211 | segment 0 enters flash cards, any other segment the quiz, as `EnterFlashCards`/`EnterQuiz` say |
| ElementQuizController.ViewController.TextFieldShouldReturn | ElementQuiz/ViewController.swift:214-237 | the fields become `QuizSession.SubmitAnswer` of their old values with the typed text, and the Return key is always accepted |
| ElementQuizController.ViewController.ScoreAlertDismissed | ElementQuiz/ViewController.swift:252-254 | dismissing the alert re-enters flash-card mode |
| ElementQuizController.Walkthrough | ElementQuiz/ViewController.swift:49-237 | from the handlers' contracts alone, the screens returned along the way: launch shows "?" and the show-answer button; showing the answer shows "Carbon"; next shows "?" under "Next Element"; the quiz shows an editable field, a disabled next button and no show-answer button; a right answer shows "Correct!", a locked field and an enabled next button; back on flash cards the screen shows "?" with the field hidden and the count is still 1 |

## Left out

- UIKit widgets are not modelled: the image view and `UIImage(named:)`, the keyboard's first responder, the mode selector's `selectedSegmentIndex` being set, and the text field's text being cleared. Their outcomes appear only as `ViewModel` fields. `Editable` means visible, enabled, cleared and holding the keyboard; `Locked` means visible, disabled, keyboard dismissed.
- `textField.isEnabled` is not assigned in flash-card mode or in the quiz score state, so it keeps its old value there. The model reports the field as `Hidden` in those cases, since a hidden field cannot be used.
- Presenting the score alert (`displayScoreAlert`) is not modelled. The alert is the `scoreAlert` field, and its dismissal is an explicit event. The alert text is the pair of numbers in `ScoreReport`; the formatted message is not modelled, and neither is the `print` of the same message.
- The second text-field `switch` in `updateQuizUI` only repeats the first, so it has no model of its own.
- `shuffled()` is modelled as an arbitrary permutation. The class picks it nondeterministically; the session functions take it as a parameter. The random number generator is not modelled.
- CaseFold.Lowercased: folds only the ASCII letters A–Z, because Unicode lower-casing is a platform library routine. The app compares only against ASCII names, but non-ASCII input that Unicode folding would equate is not covered.
- `textField.text!` is treated as always present, as it is for a `UITextField`.
- `correctAnswerCount` is an unbounded integer. Swift's overflow trap on `+= 1` is not modelled; under the screen's gating the count never exceeds the list length of 4 (`QuizEvents.ScoreInvariant`, kept by `QuizEvents.GatedRunKeepsScoreInvariant`).
