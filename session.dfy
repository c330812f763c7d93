/** The quiz session of the `Quizzao` component (src/App.js): its state
    fields and the event handlers that change them. */
module Session {
  import opened Wrappers
  import opened Text
  import opened Quiz

  /** `currentView`: the setup form or the quiz card. */
  datatype View = Home | QuizCard

  /** `quizMode`: competitive mode runs the stopwatch. */
  datatype Mode = Casual | Competitive

  /** What the call to the quiz generator produced: a response whose
      `questions` field may be missing, or an error (network failure, non-2xx
      status), which the component only reports. */
  datatype FetchResult = Received(questions: Option<seq<Question>>) | Failed

  /** `!s || !s.trim()`: the topic is blank exactly when every character of
      it is whitespace. */
  predicate Blank(s: string): (b: bool)
    ensures b <==> AllSpace(s)
  {
    TrimSpec(s);
    s == [] || Trim(s) == []
  }

  /** The start guard: the topic has a character that is not whitespace, and
      a difficulty is chosen. */
  predicate CanStart(subject: string, level: string): (ok: bool)
    ensures ok <==> (exists i :: 0 <= i < |subject| && !IsSpace(subject[i])) && level != []
  {
    !Blank(subject) && level != []
  }

  /** The facts that hold in every reachable state, on the state's values:
      the index is inside a non-empty quiz (and 0 for an empty one), the
      ledger only answers questions of the quiz, and the counter never
      exceeds the number of answered questions. */
  ghost predicate Consistent(quiz: seq<Question>, current: nat, answers: Ledger, score: nat) {
    (if quiz == [] then current == 0 else current < |quiz|)
    && (forall k :: k in answers ==> k < |quiz|)
    && score <= |answers|
  }

  /** The facts that hold while options are clicked only through the UI
      gates: feedback and the selection mirror the ledger entry of the
      current question, and the counter equals the ledger's worth. */
  ghost predicate Mirrors(quiz: seq<Question>, current: nat, answers: Ledger, score: nat,
                          selected: Option<nat>, showFeedback: bool) {
    showFeedback == (current in answers)
    && selected == Lookup(answers, current)
    && score == LedgerScore(quiz, answers)
  }

  /** In a consistent state the score is at most the number of answered
      questions, which is at most the number of questions. */
  lemma ConsistentScoreBound(quiz: seq<Question>, current: nat, answers: Ledger, score: nat)
    requires Consistent(quiz, current, answers, score)
    ensures score <= |answers| <= |quiz|
  {
    LedgerSizeBound(answers.Keys, |quiz|);
  }

  class QuizSession {
    // Configuration, edited on the setup form.
    var selectedSubject: string
    var schoolLevel: string
    var quizMode: Mode
    var quizLength: nat

    // The session proper.
    var currentView: View
    var dynamicQuiz: seq<Question>
    var currentQuestion: nat
    var answers: Ledger
    var score: nat
    var selectedOptionIndex: Option<nat>
    var showFeedback: bool
    var showResults: bool

    // The stopwatch, as far as the handlers set it.
    var isRunning: bool
    var elapsedMs: nat

    // The AI helper panel, which the handlers clear.
    var aiQuestion: string
    var aiAnswer: string

    /** Holds in every reachable state, whatever the user clicks. */
    ghost predicate Valid()
      reads this`dynamicQuiz, this`currentQuestion, this`answers, this`score
    {
      Consistent(dynamicQuiz, currentQuestion, answers, score)
    }

    /** Holds while options are clicked only through the UI gates. */
    ghost predicate InSync()
      reads this`dynamicQuiz, this`currentQuestion, this`answers, this`score,
            this`selectedOptionIndex, this`showFeedback
    {
      Mirrors(dynamicQuiz, currentQuestion, answers, score, selectedOptionIndex, showFeedback)
    }

    /** The current question exists and has an `options` field. */
    predicate HasOptions()
      reads this`dynamicQuiz, this`currentQuestion
    {
      currentQuestion < |dynamicQuiz| && dynamicQuiz[currentQuestion].options.Some?
    }

    /** The initial values of the component's state hooks. */
    constructor ()
      ensures Valid() && InSync()
      ensures selectedSubject == [] && schoolLevel == [] && quizMode == Casual && quizLength == 5
      ensures currentView == Home && dynamicQuiz == [] && currentQuestion == 0
      ensures answers == map[] && score == 0 && selectedOptionIndex == None
      ensures !showFeedback && !showResults && !isRunning && elapsedMs == 0
      ensures aiQuestion == [] && aiAnswer == []
    {
      selectedSubject, schoolLevel, quizMode, quizLength := [], [], Casual, 5;
      currentView, dynamicQuiz, currentQuestion := Home, [], 0;
      answers, score, selectedOptionIndex := map[], 0, None;
      showFeedback, showResults := false, false;
      isRunning, elapsedMs := false, 0;
      aiQuestion, aiAnswer := [], [];
      EmptyLedgerScore([]);
    }

    /** The topic input. */
    method SetSubject(s: string)
      modifies this`selectedSubject
      ensures selectedSubject == s
    {
      selectedSubject := s;
    }

    /** The difficulty selector; the empty string is "Select level". */
    method SetLevel(level: string)
      modifies this`schoolLevel
      ensures schoolLevel == level
    {
      schoolLevel := level;
    }

    /** The mode selector. */
    method SetMode(mode: Mode)
      modifies this`quizMode
      ensures quizMode == mode
    {
      quizMode := mode;
    }

    /** The length selector (5, 10 or 25 questions). */
    method SetLength(n: nat)
      modifies this`quizLength
      ensures quizLength == n
    {
      quizLength := n;
    }

    /** `fetchQuizFromBackend`: the guard, then (given what the generator
        returned) the reset that installs a new quiz. Returns whether the
        request was sent. A failed guard or a failed request changes
        nothing. */
    method StartQuiz(result: FetchResult) returns (requested: bool)
      requires Valid()
      modifies this`currentView, this`dynamicQuiz, this`currentQuestion, this`answers,
               this`score, this`showResults, this`selectedOptionIndex, this`showFeedback,
               this`aiQuestion, this`aiAnswer, this`isRunning, this`elapsedMs
      ensures Valid()
      ensures requested == CanStart(old(selectedSubject), old(schoolLevel))
      ensures !requested || result.Failed? ==> unchanged(this)
      ensures requested && result.Received? ==>
        && currentView == QuizCard
        && dynamicQuiz == (match result.questions case Some(qs) => qs case None => [])
        && currentQuestion == 0 && answers == map[] && score == 0
        && !showResults && selectedOptionIndex == None && !showFeedback
        && aiQuestion == [] && aiAnswer == []
        && elapsedMs == 0 && isRunning == (quizMode == Competitive)
        && InSync()
    {
      if Blank(selectedSubject) {
        return false;
      }
      if schoolLevel == [] {
        return false;
      }
      requested := true;
      match result
      case Failed =>
      case Received(questions) =>
        // The stopwatch starts only in competitive mode; either way it reads 0.
        Reset(QuizCard, match questions case Some(qs) => qs case None => [], quizMode == Competitive);
    }

    /** The reset that starting a quiz and going back home share: every
        session field is set, the configuration is left alone. */
    method Reset(view: View, quiz: seq<Question>, running: bool)
      modifies this`currentView, this`dynamicQuiz, this`currentQuestion, this`answers,
               this`score, this`showResults, this`selectedOptionIndex, this`showFeedback,
               this`aiQuestion, this`aiAnswer, this`isRunning, this`elapsedMs
      ensures Valid() && InSync()
      ensures currentView == view && dynamicQuiz == quiz && currentQuestion == 0
      ensures answers == map[] && score == 0 && !showResults
      ensures selectedOptionIndex == None && !showFeedback
      ensures aiQuestion == [] && aiAnswer == []
      ensures isRunning == running && elapsedMs == 0
    {
      ClearLedger(quiz);
      currentView, showResults := view, false;
      aiQuestion, aiAnswer := [], [];
      isRunning, elapsedMs := running, 0;
    }

    /** Installs `quiz` at its first question with an empty ledger. */
    method ClearLedger(quiz: seq<Question>)
      modifies this`dynamicQuiz, this`currentQuestion, this`answers,
               this`score, this`selectedOptionIndex, this`showFeedback
      ensures Valid() && InSync()
      ensures dynamicQuiz == quiz && currentQuestion == 0 && answers == map[] && score == 0
      ensures selectedOptionIndex == None && !showFeedback
    {
      EmptyLedgerScore(quiz);
      dynamicQuiz, currentQuestion := quiz, 0;
      answers, score := map[], 0;
      selectedOptionIndex, showFeedback := None, false;
    }

    /** `handleQuizAnswer(idx)`: with no current question or no options,
        nothing; otherwise the option is selected, feedback shown, the ledger
        entry of the current question set (and no other), and the counter
        raised by one exactly when the choice is correct and the question had
        no entry before. A first answer keeps the counter equal to the
        ledger's worth. */
    method Answer(idx: nat)
      requires Valid()
      modifies this`selectedOptionIndex, this`showFeedback, this`answers, this`score
      ensures Valid()
      ensures !old(HasOptions()) ==> unchanged(this)
      ensures old(HasOptions()) ==>
        && selectedOptionIndex == Some(idx) && showFeedback
        && answers == old(answers)[currentQuestion := idx]
        && score == old(score)
           + (if CorrectChoice(dynamicQuiz[currentQuestion], idx) && currentQuestion !in old(answers)
              then 1 else 0)
      ensures old(InSync()) && old(currentQuestion) !in old(answers) ==> InSync()
    {
      if !(currentQuestion < |dynamicQuiz|) {
        return;
      }
      var question := dynamicQuiz[currentQuestion];
      if question.options.None? {
        return;
      }
      var chosen := OptionAt(question, idx);
      var correct := question.correctAnswer;

      selectedOptionIndex := Some(idx);
      showFeedback := true;

      // The handler keeps reading the ledger it started with.
      var previous := answers;
      answers := previous[currentQuestion := idx];

      if chosen.Some? && Matches(chosen.value, correct) {
        if Lookup(previous, currentQuestion).None? {
          score := score + 1;
        }
      }
      if currentQuestion !in previous {
        RecordFirstAnswer(dynamicQuiz, previous, currentQuestion, idx);
      }
    }

    /** `goToNextQuestion`: below the last index, move on one and restore
        selection and feedback from the ledger; at the last index (or in an
        empty quiz), show the results and stop the stopwatch. */
    method Next()
      requires Valid()
      modifies this`currentQuestion, this`selectedOptionIndex, this`showFeedback,
               this`showResults, this`isRunning
      ensures Valid()
      ensures old(currentQuestion) + 1 < |dynamicQuiz| ==>
        && currentQuestion == old(currentQuestion) + 1
        && selectedOptionIndex == Lookup(answers, currentQuestion)
        && showFeedback == (currentQuestion in answers)
        && showResults == old(showResults) && isRunning == old(isRunning)
      ensures old(currentQuestion) + 1 >= |dynamicQuiz| ==>
        && currentQuestion == old(currentQuestion)
        && selectedOptionIndex == old(selectedOptionIndex) && showFeedback == old(showFeedback)
        && showResults && !isRunning
      ensures old(InSync()) ==> InSync()
    {
      if currentQuestion < |dynamicQuiz| - 1 {
        var nextIndex := Lookup(answers, currentQuestion + 1);
        currentQuestion := currentQuestion + 1;
        selectedOptionIndex := nextIndex;
        showFeedback := nextIndex.Some?;
      } else {
        showResults := true;
        isRunning := false;
      }
    }

    /** `goToPreviousQuestion`: nothing at the first index; otherwise move
        back one and restore selection and feedback from the ledger. */
    method Previous()
      requires Valid()
      modifies this`currentQuestion, this`selectedOptionIndex, this`showFeedback
      ensures Valid()
      ensures old(currentQuestion) == 0 ==> unchanged(this)
      ensures old(currentQuestion) > 0 ==>
        && currentQuestion == old(currentQuestion) - 1
        && selectedOptionIndex == Lookup(answers, currentQuestion)
        && showFeedback == (currentQuestion in answers)
      ensures old(InSync()) ==> InSync()
    {
      if currentQuestion > 0 {
        var prevIndex := Lookup(answers, currentQuestion - 1);
        currentQuestion := currentQuestion - 1;
        selectedOptionIndex := prevIndex;
        showFeedback := prevIndex.Some?;
      }
    }

    /** `handleBackToHome`: everything but the configuration is reset. */
    method BackToHome()
      modifies this`currentView, this`dynamicQuiz, this`currentQuestion, this`answers,
               this`score, this`showResults, this`selectedOptionIndex, this`showFeedback,
               this`aiQuestion, this`aiAnswer, this`isRunning, this`elapsedMs
      ensures Valid() && InSync()
      ensures currentView == Home && dynamicQuiz == [] && currentQuestion == 0
      ensures score == 0 && !showResults && answers == map[] && selectedOptionIndex == None
      ensures !showFeedback && aiQuestion == [] && aiAnswer == []
      ensures !isRunning && elapsedMs == 0
      ensures unchanged(this`selectedSubject, this`schoolLevel, this`quizMode, this`quizLength)
    {
      Reset(Home, [], false);
    }

    /** An option button: a click is ignored once feedback is shown. Through
        this gate a ledger entry, once written, is never overwritten, so the
        counter stays equal to the ledger's worth. */
    method ClickOption(idx: nat)
      requires Valid()
      modifies this`selectedOptionIndex, this`showFeedback, this`answers, this`score
      ensures Valid()
      ensures old(showFeedback) || !old(HasOptions()) ==> unchanged(this)
      ensures !old(showFeedback) && old(HasOptions()) ==>
        && selectedOptionIndex == Some(idx) && showFeedback
        && answers == old(answers)[currentQuestion := idx]
        && score == old(score)
           + (if CorrectChoice(dynamicQuiz[currentQuestion], idx) && currentQuestion !in old(answers)
              then 1 else 0)
      ensures old(InSync()) ==> InSync()
      ensures old(InSync()) ==> forall k :: k in old(answers) ==> k in answers && answers[k] == old(answers)[k]
    {
      if !showFeedback {
        Answer(idx);
      }
    }

    /** The "Next"/"Finish" button: disabled until feedback is shown. */
    method ClickNext()
      requires Valid()
      modifies this`currentQuestion, this`selectedOptionIndex, this`showFeedback,
               this`showResults, this`isRunning
      ensures Valid()
      ensures !old(showFeedback) ==> unchanged(this)
      ensures old(showFeedback) && old(currentQuestion) + 1 < |dynamicQuiz| ==>
        && currentQuestion == old(currentQuestion) + 1
        && showResults == old(showResults) && isRunning == old(isRunning)
        && selectedOptionIndex == Lookup(answers, currentQuestion)
        && showFeedback == (currentQuestion in answers)
      ensures old(showFeedback) && old(currentQuestion) + 1 >= |dynamicQuiz| ==>
        && currentQuestion == old(currentQuestion)
        && selectedOptionIndex == old(selectedOptionIndex) && showFeedback == old(showFeedback)
        && showResults && !isRunning
      ensures old(InSync()) ==> InSync()
    {
      if showFeedback {
        Next();
      }
    }

    /** The results view: the score out of the number of questions, and the
        elapsed time in competitive mode only ("N/A" in casual mode). */
    method Results() returns (got: nat, outOf: nat, time: Option<nat>)
      requires Valid()
      ensures got == score && outOf == |dynamicQuiz| && got <= outOf
      ensures time.Some? <==> quizMode == Competitive
      ensures time.Some? ==> time.value == elapsedMs
    {
      ConsistentScoreBound(dynamicQuiz, currentQuestion, answers, score);
      got, outOf := score, |dynamicQuiz|;
      time := if quizMode == Competitive then Some(elapsedMs) else None;
    }

    /** The colours of the current question's option buttons; none outside
        the quiz view and none in the results view, which hides the quiz
        card. While the gates are kept,
        the chosen button is green exactly when its answer counted towards
        the score. */
    method OptionButtons() returns (shades: seq<Shade>)
      requires Valid()
      ensures showResults || currentView != QuizCard || currentQuestion >= |dynamicQuiz| ==> shades == []
      ensures !showResults && currentView == QuizCard && currentQuestion < |dynamicQuiz| ==>
        shades == Shades(dynamicQuiz[currentQuestion], showFeedback, selectedOptionIndex)
      ensures !showFeedback ==> forall i :: 0 <= i < |shades| ==> shades[i] == Plain
      ensures InSync() && showFeedback && selectedOptionIndex.Some? && selectedOptionIndex.value < |shades| ==>
        (shades[selectedOptionIndex.value] == Right <==> Marks(dynamicQuiz, answers)[currentQuestion])
    {
      if !showResults && currentView == QuizCard && currentQuestion < |dynamicQuiz| {
        shades := Shades(dynamicQuiz[currentQuestion], showFeedback, selectedOptionIndex);
      } else {
        shades := [];
      }
    }
  }
}
