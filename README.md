# Quizzao quiz session, modelled in Dafny

The `Quizzao` React component (`src/App.js`) runs a multiple-choice quiz
on questions from a generator service. Its logic is a small state machine:
- state hooks for the view, the question list, the current index, a sparse
  answer ledger, a score counter, the selected option, feedback and
  results flags, and the stopwatch;
- event handlers that change those fields:
  - `fetchQuizFromBackend`
  - `handleQuizAnswer`
  - `goToNextQuestion`
  - `goToPreviousQuestion`
  - `handleBackToHome`
- two pure expressions:
  - the answer test, which compares trimmed, lower-cased strings, both
    non-empty;
  - the colour shown on each option button.

The project models this as follows:

- `wrappers.dfy`, module `Wrappers`: `Option`. JavaScript `null` and
  `undefined` become `None`.
- `text.dfy`, module `Text`: the answer test `Matches`, with what it needs
  of `trim()` and `toLowerCase()`.
  - Its properties are lemmas. Whitespace padding and letter case do not
    change the outcome.
  - The non-empty test comes before trimming, so two non-empty blank strings match.
- `quiz.dfy`, module `Quiz`: the values.
  - `Question`. A missing `options` field is distinct from an empty list,
    which JavaScript treats as present.
  - The ledger `map<nat, nat>`. A hole in the JavaScript array is an
    absent key.
  - `LedgerScore`, the worth of a ledger: the number of answered
    questions whose chosen option is correct.
  - `OptionShade` and `Shades`, on-screen labels classifying each option
    button.
- `session.dfy`, module `Session`: the class `Session.QuizSession`.
  - It has one field per state hook the handlers set and one method per
    handler.
  - Two methods model the UI gates:
    - `ClickOption`: option buttons ignore clicks once feedback is shown.
    - `ClickNext`: "Next" is disabled until feedback is shown.
  - `Results` and `OptionButtons` model what the results view and the
    option buttons show.

The model has two invariants:

- `Valid()` holds in every reachable state, whatever the user clicks.
  - The index is inside a non-empty quiz, and 0 for an empty one.
  - The ledger only answers questions of the quiz.
  - The counter never exceeds the number of answered questions.
- `InSync()` holds while the handlers are reached only through the UI
  gates.
  - Feedback and selection mirror the current question's ledger entry.
  - The incremental counter equals `LedgerScore` of the ledger.

  `Valid()` and `InSync()` call the value-level predicates
  `Session.Consistent` and `Session.Mirrors`.

The score is an incremental counter, as in the code. It is raised only
when the current question had no ledger entry before. The model does not
recompute it from the ledger.

A score recomputed from the ledger could never double-count. The code
keeps a counter instead, and the model follows the code. It proves that
the counter equals the ledger's worth under the UI gates.

Without the gates, re-answering a question rewrites its ledger entry but
never changes the counter. A wrong first answer followed by a right one
leaves the counter one below the ledger's worth. `Answer` promises
`InSync()` only for a first answer for that reason. The rendered UI can
never reach that case, so no user can observe it.

## Model

| member | source | states |
|---|---|---|
| Text.TrimStartSpec | src/App.js:143 | the leading-whitespace cut of `trim()` leaves a suffix that does not start with whitespace, and everything cut was whitespace |
| Text.TrimEndSpec | src/App.js:143 | the trailing-whitespace cut leaves a prefix that does not end with whitespace, and everything cut was whitespace |
| Text.TrimSpec | src/App.js:71 | `s.trim()` is empty exactly when every character of `s` is whitespace; otherwise it begins and ends with a non-space |
| Text.LowerSpec | src/App.js:143 | `toLowerCase()` lowers each character on its own and leaves no upper-case letter |
| Text.LowerIdempotent | src/App.js:143 | lower-casing twice is lower-casing once |
| Text.LowerTrimCommute | src/App.js:143 | trimming and lower-casing can be done in either order |
| Text.TrimPadding | src/App.js:143 | whitespace added on both sides does not survive `trim()` |
| Text.Matches | src/App.js:141-143 | two strings that match are both non-empty before trimming and trim to the same length; its further properties are `MatchesIsEquivalence`, `MatchesIgnoresPadding`, `MatchesIgnoresCase`, `PaddedWordMatchesLowered` and `BlankStringsMatch` |
| Text.MatchesIsEquivalence | src/App.js:505-508 | on non-empty strings the answer test is reflexive, symmetric and transitive |
| Text.MatchesIgnoresPadding | src/App.js:140-144 | padding a non-empty option with whitespace never changes whether it matches the correct answer |
| Text.MatchesIgnoresCase | src/App.js:140-144 | lower-casing an option never changes whether it matches the correct answer |
| Text.PaddedWordMatchesLowered | src/App.js:140-144 | a non-empty answer padded with blanks matches its lower-case form |
| Text.BlankStringsMatch | src/App.js:141-143 | the truthiness test comes before trimming, so two non-empty blank strings match |
| Quiz.CorrectChoice | src/App.js:130-143 | an index that has no option never scores, and no option of a question without a correct answer scores |
| Quiz.RecordThenLookup | src/App.js:136-138 | after the ledger write, reading index `j` gives the written choice at the current question and the old entry (or `null`) everywhere else |
| Quiz.Marks | src/App.js:140-146 | per question: whether the ledger holds an entry for it whose option matches the correct answer |
| Quiz.LedgerScore | src/App.js:133-147 | the worth of a ledger never exceeds the number of questions |
| Quiz.EmptyLedgerScore | src/App.js:100-101 | the empty ledger installed by a reset is worth 0, matching the counter being set to 0 |
| Quiz.RecordFirstAnswer | src/App.js:136-148 | a first answer adds one to the ledger's worth exactly when it is correct, which is what the counter does |
| Quiz.LedgerSizeBound | src/App.js:136-138 | a ledger indexed by question has at most one entry per question |
| Quiz.OptionShade | src/App.js:499-513 | without feedback an option is plain; with feedback a correct option is marked right whether chosen or not; a wrong option is marked wrong exactly when it is the chosen one, and is plain otherwise |
| Quiz.Shades | src/App.js:493-513 | one shade per option, in order, none when the question has no options |
| Quiz.NoFeedbackAllPlain | src/App.js:499-502 | before feedback every option button is plain |
| Quiz.AtMostOneWrong | src/App.js:510-512 | with feedback, only the chosen option can be marked wrong, and only when it does not score |
| Quiz.ChosenShadeAgreesWithScoring | src/App.js:503-512 | the chosen option is marked right exactly when choosing it scores, and is never plain |
| Session.Blank | src/App.js:71 | a topic fails the `!s \|\| !s.trim()` test exactly when it is all whitespace |
| Session.CanStart | src/App.js:71-78 | a start passes the guards exactly when the topic has a non-whitespace character and a difficulty is chosen |
| Session.ConsistentScoreBound | src/App.js:145-147 | in a consistent state, score ≤ number of answered questions ≤ number of questions |
| Session.QuizSession.constructor | src/App.js:6-54 | the initial hook values (lines 6-21, and the AI panel at 53-54), which satisfy both invariants |
| Session.QuizSession.SetSubject | src/App.js:281 | the topic input sets the topic and nothing else |
| Session.QuizSession.SetLevel | src/App.js:298 | the difficulty selector sets the level and nothing else |
| Session.QuizSession.SetMode | src/App.js:319 | the mode selector sets the mode and nothing else |
| Session.QuizSession.SetLength | src/App.js:338 | the length selector sets the quiz length and nothing else |
| Session.QuizSession.StartQuiz | src/App.js:70-124 | the request is sent exactly when the topic is not blank and a level is chosen; a refused start or a failed request changes nothing; on success the quiz view shows the received list (empty when missing) at index 0 with an empty ledger, score 0, no selection, feedback or results, the AI panel cleared, `elapsedMs` 0 and the stopwatch running exactly in competitive mode; both invariants then hold |
| Session.QuizSession.Reset | src/App.js:97-115 | the reset shared by a successful start and going home sets every session field and establishes both invariants |
| Session.QuizSession.ClearLedger | src/App.js:97-106 | a new quiz is installed at its first question with an empty ledger, score 0, no selection and no feedback |
| Session.QuizSession.Answer | src/App.js:126-149 | with no current question or no options nothing changes; otherwise the option is selected, feedback shown, only the current ledger entry is written, and the counter rises by one exactly when the choice is correct and the question had no entry before; a first answer keeps the counter equal to the ledger's worth |
| Session.QuizSession.Next | src/App.js:151-161 | below the last index: one step forward, with selection and feedback restored from the ledger; at the last index or in an empty quiz: the index stays, results are shown and the stopwatch stops |
| Session.QuizSession.Previous | src/App.js:163-170 | at index 0 nothing changes; otherwise one step back with selection and feedback restored from the ledger; the index stays in bounds |
| Session.QuizSession.BackToHome | src/App.js:172-185 | the home view with no questions, index 0, empty ledger, score 0, no results, selection or feedback, AI panel cleared, stopwatch stopped at 0; the four configuration fields are untouched |
| Session.QuizSession.ClickOption | src/App.js:518-520 | a click while feedback is shown, or on a question without options, changes nothing; otherwise the click selects the option, shows feedback, writes only the current ledger entry and raises the counter by one exactly when the choice is correct and the question had no entry before; through this gate a ledger entry, once written, is never overwritten, and the counter stays equal to the ledger's worth |
| Session.QuizSession.ClickNext | src/App.js:577-579 | "Next" does nothing before feedback is shown; otherwise, below the last index, one step forward with selection and feedback restored from the ledger and the results flag and stopwatch untouched, and at the last index the index, selection and feedback stay while results are shown and the stopwatch stops; both invariants are kept |
| Session.QuizSession.Results | src/App.js:619-629 | the results show score out of the number of questions, score never above it, and a time only in competitive mode |
| Session.QuizSession.OptionButtons | src/App.js:381-513 | no buttons outside the quiz view, in the results view or past the last question; otherwise the current question's option shades, all plain before feedback; under the gates the chosen button is marked right exactly when its ledger entry counts towards the score |

## Left out

- The HTTP calls to `/generate-quiz` and `/ask-ai` are left out, with the derivation of their error messages. `alert` and `console` output is left out too. The generator's answer is the `FetchResult` parameter of `StartQuiz`.
- `quizLoading` is left out. It is true only while the request is pending. The request is modelled as one atomic step.
- The handler carries no generation token for its request. Through the UI, fetches cannot overlap, because Start is disabled while `quizLoading` is true (src/App.js:357-359). Configuration edits made while the request is pending are not seen by the handler, which uses the values captured at the click (src/App.js:109). The model makes the request one atomic step, so it captures neither the pending interval nor those edits.
- `Session.QuizSession.StartQuiz`: the request body sends the trimmed topic. The model does not represent the request, so it does not capture this.
- The AI helper `handleAskAI` (src/App.js:188-216) and `marked` rendering are left out. They are a network call and a foreign library. Only the clearing of `aiQuestion` and `aiAnswer` by the handlers is modelled.
- The stopwatch effect (src/App.js:58-68) is left out. It uses `setInterval`, `performance.now` and a floating-point `elapsedMs`. Only the handlers' `isRunning` and `elapsedMs := 0` assignments are modelled. `elapsedMs` is a `nat`.
- `formattedTime` (src/App.js:219) is left out. It formats a float through `Date` and ISO string slicing.
- The progress-bar percentage (src/App.js:396-399) is left out, because it is floating-point.
- Themes, colours and layout are left out. The colour of an option button is kept only as the three-way `Shade`.
- `Text.Trim`, `Text.Lower`: JavaScript's `trim` removes all Unicode whitespace and line terminators, and `toLowerCase` lowers all of Unicode. The model covers ASCII whitespace and ASCII letters only.
- An entry of the question list that is `null`, a number or a string is not a separate case. The handler returns early on it (src/App.js:127-128) and the rendering guards skip it (src/App.js:489, 493-494, 540), so it behaves exactly like a `Question` with `options == None`.
- Options and correct answers that are not strings are left out. Every option is a string, and a missing `correctAnswer` is the empty string, which is falsy like `undefined`. A `correctAnswer` that is a truthy non-string, such as a number, makes `correct.trim()` throw once a non-empty option is chosen (src/App.js:143), and makes the option rendering throw (src/App.js:507-508); the model has no such case.
- `Session.QuizSession.SetLength`: the length selector's `Number(...)` conversion is not modelled. The length is a `nat`.
