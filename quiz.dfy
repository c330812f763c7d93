/** The values the quiz session works on: the questions received from the
    generator, the answer ledger, the score a ledger is worth, and the
    colour each option button gets once feedback is shown. */
module Quiz {
  import opened Wrappers
  import opened Text

  /** One generated question. A missing `options` field is `None`; an empty
      list is `Some([])`, which JavaScript treats as present. A missing
      `correctAnswer` is the empty string: both are falsy to the answer test. */
  datatype Question = Question(
    question: string,
    options: Option<seq<string>>,
    correctAnswer: string,
    explanation: string)

  /** `question.options[idx]`: `None` when there are no options or the index
      is past the end (JavaScript's `undefined`). */
  function OptionAt(q: Question, idx: nat): Option<string> {
    match q.options
    case None => None
    case Some(opts) => if idx < |opts| then Some(opts[idx]) else None
  }

  /** Choosing option `idx` of `q` answers it correctly. An index that has
      no option never scores, and neither does any option of a question
      without a correct answer. */
  predicate CorrectChoice(q: Question, idx: nat): (c: bool)
    ensures c ==> q.options.Some? && idx < |q.options.value| && q.correctAnswer != []
  {
    match OptionAt(q, idx)
    case None => false
    case Some(chosen) => Matches(chosen, q.correctAnswer)
  }

  /** The answer ledger: question index to chosen option index. A JavaScript
      array with holes; a hole (read as `null`) is an absent key. */
  type Ledger = map<nat, nat>

  /** `answers[k] ?? null`. */
  function Lookup(answers: Ledger, k: nat): Option<nat> {
    if k in answers then Some(answers[k]) else None
  }

  /** Reading the ledger after writing entry `k` gives the written value at
      `k` and the old entry everywhere else: the write in `handleQuizAnswer`
      is what the navigation handlers later restore. */
  lemma RecordThenLookup(answers: Ledger, k: nat, v: nat, j: nat)
    ensures Lookup(answers[k := v], j) == if j == k then Some(v) else Lookup(answers, j)
  {
  }

  /** Per question, whether the ledger holds a correct answer for it. */
  function Marks(quiz: seq<Question>, answers: Ledger): (r: seq<bool>)
    ensures |r| == |quiz|
    ensures forall j :: 0 <= j < |r| ==> (r[j] <==> j in answers && CorrectChoice(quiz[j], answers[j]))
  {
    seq(|quiz|, j requires 0 <= j < |quiz| => j in answers && CorrectChoice(quiz[j], answers[j]))
  }

  /** The number of `true` entries of `s`. */
  function CountTrue(s: seq<bool>): (r: nat)
    ensures r <= |s|
  {
    if s == [] then 0 else CountTrue(s[..|s| - 1]) + (if s[|s| - 1] then 1 else 0)
  }

  /** The score a ledger is worth: how many questions it answers correctly. */
  function LedgerScore(quiz: seq<Question>, answers: Ledger): (r: nat)
    ensures r <= |quiz|
  {
    CountTrue(Marks(quiz, answers))
  }

  /** Setting one entry of `s` changes the count by that entry's change. */
  lemma {:induction false} CountTrueUpdate(s: seq<bool>, k: nat, b: bool)
    requires k < |s|
    ensures CountTrue(s[k := b]) + (if s[k] then 1 else 0) == CountTrue(s) + (if b then 1 else 0)
  {
    var t := s[k := b];
    if k < |s| - 1 {
      assert t[..|t| - 1] == s[..|s| - 1][k := b];
      CountTrueUpdate(s[..|s| - 1], k, b);
    } else {
      assert t[..|t| - 1] == s[..|s| - 1];
    }
  }

  lemma {:induction false} CountTrueNone(s: seq<bool>)
    requires forall j :: 0 <= j < |s| ==> !s[j]
    ensures CountTrue(s) == 0
  {
    if s != [] {
      CountTrueNone(s[..|s| - 1]);
    }
  }

  /** An empty ledger is worth nothing. */
  lemma EmptyLedgerScore(quiz: seq<Question>)
    ensures LedgerScore(quiz, map[]) == 0
  {
    CountTrueNone(Marks(quiz, map[]));
  }

  /** Recording a first answer for question `k` adds one to the ledger's
      worth exactly when that answer is correct. */
  lemma RecordFirstAnswer(quiz: seq<Question>, answers: Ledger, k: nat, idx: nat)
    requires k < |quiz| && k !in answers
    ensures LedgerScore(quiz, answers[k := idx])
         == LedgerScore(quiz, answers) + (if CorrectChoice(quiz[k], idx) then 1 else 0)
  {
    var before, after := Marks(quiz, answers), Marks(quiz, answers[k := idx]);
    assert after == before[k := CorrectChoice(quiz[k], idx)];
    CountTrueUpdate(before, k, CorrectChoice(quiz[k], idx));
  }

  /** A ledger whose keys are question indices has at most one entry per
      question. */
  lemma {:induction false} LedgerSizeBound(keys: set<nat>, n: nat)
    requires forall k :: k in keys ==> k < n
    ensures |keys| <= n
  {
    if n == 0 {
      assert keys == {};
    } else {
      LedgerSizeBound(keys - {n - 1}, n - 1);
    }
  }

  /** The background an option button gets (src/App.js:499-513): the theme's
      plain colour, its "correct" colour or its "wrong" colour. */
  datatype Shade = Plain | Right | Wrong

  /** The shade of option `idx`, whose text is `opt`, of a question whose
      correct answer is `correct`, when `selected` is the chosen index. */
  function OptionShade(showFeedback: bool, idx: nat, selected: Option<nat>, opt: string, correct: string): (r: Shade)
    ensures !showFeedback ==> r == Plain
    ensures showFeedback && Matches(opt, correct) ==> r == Right
    ensures showFeedback && !Matches(opt, correct) ==> (r == Wrong <==> selected == Some(idx))
    ensures showFeedback && !Matches(opt, correct) && selected != Some(idx) ==> r == Plain
  {
    if !showFeedback then Plain
    else
      var isChosen := selected == Some(idx);
      var isCorrect := Matches(opt, correct);
      if isChosen && isCorrect then Right
      else if isChosen && !isCorrect then Wrong
      else if !isChosen && isCorrect then Right
      else Plain
  }

  /** The shades of all option buttons of `q`, in order; no buttons when the
      question has no options. */
  function Shades(q: Question, showFeedback: bool, selected: Option<nat>): (r: seq<Shade>)
    ensures q.options.None? ==> r == []
    ensures q.options.Some? ==> |r| == |q.options.value|
    ensures forall i :: 0 <= i < |r| ==>
      r[i] == OptionShade(showFeedback, i, selected, q.options.value[i], q.correctAnswer)
  {
    match q.options
    case None => []
    case Some(opts) =>
      seq(|opts|, i requires 0 <= i < |opts| => OptionShade(showFeedback, i, selected, opts[i], q.correctAnswer))
  }

  /** Before feedback every option is plain. */
  lemma NoFeedbackAllPlain(q: Question, selected: Option<nat>, i: nat)
    requires i < |Shades(q, false, selected)|
    ensures Shades(q, false, selected)[i] == Plain
  {
  }

  /** With feedback, at most one option is marked wrong, and only the chosen
      one. */
  lemma AtMostOneWrong(q: Question, selected: Option<nat>, i: nat)
    requires i < |Shades(q, true, selected)|
    requires Shades(q, true, selected)[i] == Wrong
    ensures selected == Some(i)
    ensures !CorrectChoice(q, i)
  {
  }

  /** With feedback, the chosen option is never plain: it is marked right
      exactly when choosing it scores. */
  lemma ChosenShadeAgreesWithScoring(q: Question, idx: nat)
    requires q.options.Some? && idx < |q.options.value|
    ensures Shades(q, true, Some(idx))[idx] != Plain
    ensures Shades(q, true, Some(idx))[idx] == Right <==> CorrectChoice(q, idx)
  {
  }
}
