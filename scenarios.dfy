/** Sample sessions of the study tool (a three-card quiz, an empty review, a
    streak across the wrap, quizzes over shared and fresh lists, a shuffled
    category review, a path to an out-of-range flip), each proved from the
    operations' contracts alone. */
module Scenarios {
  import opened Text
  import opened Cards
  import opened Session

  /** The concrete texts the scenarios below display. */
  lemma ScenarioTexts()
    ensures NatToString(1) == "1" && NatToString(2) == "2" && NatToString(3) == "3"
    ensures DoneMessage(2, 3) == "Quiz Done! Score: 2/3"
    ensures DoneMessage(1, 1) == "Quiz Done! Score: 1/1"
    ensures ProgressLabel(0, 2) == "1/2 cards" && ProgressLabel(1, 2) == "2/2 cards"
  {
    assert NatToString(1) == "1" && NatToString(2) == "2" && NatToString(3) == "3";
  }

  /** A wrong digit is not accepted. */
  lemma WrongDigitRejected()
    ensures !AnswersMatch("5", "4")
  {
    var five, four := "5", "4";
    assert LowerChar(five[0]) != LowerChar(four[0]);
    LowerSpec(five);
    LowerSpec(four);
    assert Lower(five)[0] != Lower(four)[0];
    TrimLeftPadded([], five);
    TrimLeftPadded([], four);
    TrimRightPadded(five, []);
    TrimRightPadded(four, []);
    assert [] + five == five + [] == five && [] + four == four + [] == four;
  }

  /** A new session holding three "Math" cards, with a quiz over "Math" started. */
  method StartMathQuiz() returns (s: Session, first: string)
    ensures fresh(s) && s.Valid()
    ensures s.quizCards.cards
      == [Card("1+1", "2", "Math"), Card("2+2", "4", "Math"), Card("3+3", "6", "Math")]
    ensures s.quizIndex == 0 && s.quizScore == 0
    ensures first == "1+1"
  {
    s := new Session();
    var c1, c2, c3 := Card("1+1", "2", "Math"), Card("2+2", "4", "Math"), Card("3+3", "6", "Math");
    var msg: string, field: string;
    msg := s.AddFlashcard("1+1", "2", "Math");
    msg := s.AddFlashcard("2+2", "4", "Math");
    msg := s.AddFlashcard("3+3", "6", "Math");
    assert s.store.cards == [c1, c2, c3];
    assert Filter([c3], "Math") == [c3];
    assert Filter([c2, c3], "Math") == [c2] + Filter([c3], "Math");
    assert Filter([c1, c2, c3], "Math") == [c1] + Filter([c2, c3], "Math");
    first, field := s.StartQuiz("Math", []);
  }

  /** The three "Math" cards quizzed with answers "2", "5", "6", then one
      answer too many. */
  method MathQuiz() returns (first: string, t1: string, t2: string, t3: string, extra: Result<string>)
    ensures first == "1+1"
    ensures t1 == CorrectFeedback + NextQuestionSeparator + "2+2"
    ensures t2 == IncorrectFeedback("4") + NextQuestionSeparator + "3+3"
    ensures t3 == "Quiz Done! Score: 2/3"
    ensures extra == Err(InvalidState)
  {
    var s;
    s, first := StartMathQuiz();
    var field;
    t1, field := s.SubmitQuizAnswer("2");
    assert s.quizIndex == 1 && s.quizScore == 1;
    WrongDigitRejected();
    t2, field := s.SubmitQuizAnswer("5");
    assert s.quizIndex == 2 && s.quizScore == 1;
    t3, field := s.SubmitQuizAnswer("6");
    assert s.quizIndex == 3 && s.quizScore == 2;
    assert t3 == DoneMessage(2, 3);
    ScenarioTexts();
    extra := s.TrySubmitQuizAnswer("7");
  }

  /** Reviewing an empty store shows the empty-deck sentinel. */
  method EmptyReview() returns (question: string, progress: string, streak: nat)
    ensures question == "No flashcards found." && progress == "0 cards" && streak == 0
  {
    var s := new Session();
    var field;
    question, field, progress, streak := s.NextFlashcard("", []);
  }

  /** A quiz started with the empty filter runs over the store itself, so a
      card added after the start is asked next. */
  method WholeStoreQuizSeesLaterCards() returns (t: string)
    ensures t == CorrectFeedback + NextQuestionSeparator + "Q2"
  {
    var s := new Session();
    var msg: string, field: string;
    msg := s.AddFlashcard("Q1", "A1", "Other");
    msg, field := s.StartQuiz("", []);
    msg := s.AddFlashcard("Q2", "A2", "Other");
    assert s.quizCards.cards == [Card("Q1", "A1", "Other"), Card("Q2", "A2", "Other")];
    t, field := s.SubmitQuizAnswer("A1");
  }

  /** A new session holding one "Other" card, with a quiz over "Other" started. */
  method StartOtherQuiz() returns (s: Session)
    ensures fresh(s) && fresh(s.store) && s.Valid()
    ensures s.quizCards != s.store && s.quizCards.cards == [Card("Q1", "A1", "Other")]
    ensures s.quizIndex == 0 && s.quizScore == 0
  {
    s := new Session();
    var c := Card("Q1", "A1", "Other");
    var msg: string, field: string;
    msg := s.AddFlashcard("Q1", "A1", "Other");
    assert s.store.cards == [c];
    assert Filter([c], "Other") == [c] + Filter([], "Other");
    assert View(s.store.cards, "Other") == [c];
    msg, field := s.StartQuiz("Other", []);
  }

  /** A quiz started with a category runs over a fresh list, so a card added
      after the start is not asked. */
  method CategoryQuizIgnoresLaterCards() returns (t: string)
    ensures t == "Quiz Done! Score: 1/1"
  {
    var s := StartOtherQuiz();
    var msg: string, field: string;
    msg := s.AddFlashcard("Q2", "A2", "Other");
    assert s.quizCards.cards == [Card("Q1", "A1", "Other")];
    assert AnswersMatch("A1", "A1");
    t, field := s.SubmitQuizAnswer("A1");
    assert s.quizScore == 1 && s.quizIndex == 1;
    assert t == DoneMessage(1, 1);
    ScenarioTexts();
  }

  /** A review of a "Math" and an "Other" card with the empty filter, marked
      correct twice: the second mark wraps the cursor and keeps the streak. */
  method MarkThroughWrap() returns (s: Session, p1: string, p2: string, p3: string, k3: nat)
    ensures fresh(s) && fresh(s.store) && s.Valid() && !s.shuffleMode
    ensures s.store.cards == [Card("Q1", "A1", "Math"), Card("Q2", "A2", "Other")]
    ensures s.currentIndex == 0
    ensures p1 == "1/2 cards" && p2 == "2/2 cards" && p3 == "1/2 cards" && k3 == 2
  {
    s := new Session();
    var a, b := Card("Q1", "A1", "Math"), Card("Q2", "A2", "Other");
    var msg: string, field: string;
    msg := s.AddFlashcard("Q1", "A1", "Math");
    msg := s.AddFlashcard("Q2", "A2", "Other");
    assert s.store.cards == [a, b];
    var q, f, k;
    q, f, p1, k := s.NextFlashcard("", []);
    q, f, p2, k := s.MarkAnswer(true, "", []);
    q, f, p3, k3 := s.MarkAnswer(true, "", []);
    ScenarioTexts();
  }

  /** Marking through the end of the view wraps the cursor but keeps the
      streak; the streak is lost only when a view shrinks under the cursor. */
  method StreakAcrossWrap() returns (p1: string, p2: string, p3: string, k3: nat, k4: nat)
    ensures p1 == "1/2 cards" && p2 == "2/2 cards" && p3 == "1/2 cards"
    ensures k3 == 2 && k4 == 0
  {
    var s;
    s, p1, p2, p3, k3 := MarkThroughWrap();
    var a, b := Card("Q1", "A1", "Math"), Card("Q2", "A2", "Other");
    // the cursor is at position 0; one more mark moves it to 1, past the
    // single "Math" card, and the next view of "Math" forfeits the streak
    var q, f, p4, k;
    q, f, p4, k := s.MarkAnswer(true, "", []);
    assert Filter([b], "Math") == [];
    assert Filter([a, b], "Math") == [a] + Filter([b], "Math");
    q, f, p4, k4 := s.NextFlashcard("Math", []);
  }

  /** Two "Math" cards with shuffle switched on, before any review. */
  method ShuffledMathReview() returns (s: Session)
    ensures fresh(s) && fresh(s.store) && s.Valid() && s.shuffleMode
    ensures s.store.cards == [Card("QA", "AA", "Math"), Card("QB", "AB", "Math")]
    ensures s.currentIndex == 0
  {
    s := new Session();
    var msg: string;
    msg := s.AddFlashcard("QA", "AA", "Math");
    msg := s.AddFlashcard("QB", "AB", "Math");
    msg := s.ToggleShuffle();
  }

  /** The draw 0 exchanges the two cards of a two-card list. */
  lemma SwapTwo(a: Card, b: Card)
    ensures Shuffled([a, b], [0]) == [b, a]
  {
    assert Swap([a, b], 1, 0) == [b, a];
  }

  /** `next_flashcard` over "Math" with the draw 0 shows the second card,
      taken from a shuffled copy; the store keeps its order. */
  method ShuffledMathNext() returns (s: Session, shown: string)
    ensures fresh(s) && s.Valid()
    ensures s.store.cards == [Card("QA", "AA", "Math"), Card("QB", "AB", "Math")]
    ensures s.currentIndex == 0 && !s.showAnswer
    ensures shown == "QB"
  {
    s := ShuffledMathReview();
    var a, b := Card("QA", "AA", "Math"), Card("QB", "AB", "Math");
    assert Filter([a, b], "Math") == [a] + ([b] + Filter([], "Math"));
    assert View([a, b], "Math") == [a, b];
    SwapTwo(a, b);
    var field: string, progress: string, k: nat;
    shown, field, progress, k := s.NextFlashcard("Math", [0]);
  }

  /** With shuffle on and a category selected, `next_flashcard` shows a card
      of a shuffled copy of the view while `flip_card` reads the unshuffled
      view: the answer shown after the flip belongs to another card. */
  method ShuffledCategoryFlip() returns (shown: string, flippedQuestion: string, flippedAnswer: string)
    ensures shown == "QB" && flippedQuestion == "QA" && flippedAnswer == "AA"
  {
    var s;
    s, shown := ShuffledMathNext();
    var a, b := Card("QA", "AA", "Math"), Card("QB", "AB", "Math");
    assert Filter([a, b], "Math") == [a] + ([b] + Filter([], "Math"));
    flippedQuestion, flippedAnswer := s.FlipCard("Math");
  }

  /** Two "Other" cards reviewed with the empty filter and marked once: the
      cursor is at 1. */
  method MarkedOtherReview() returns (s: Session)
    ensures fresh(s) && fresh(s.store) && s.Valid() && !s.shuffleMode
    ensures s.store.cards == [Card("Q1", "A1", "Other"), Card("Q2", "A2", "Other")]
    ensures s.currentIndex == 1
  {
    s := new Session();
    var msg: string;
    msg := s.AddFlashcard("Q1", "A1", "Other");
    msg := s.AddFlashcard("Q2", "A2", "Other");
    var q: string, f: string, p: string, k: nat;
    q, f, p, k := s.NextFlashcard("", []);
    q, f, p, k := s.MarkAnswer(true, "", []);
  }

  /** Switching to the empty "Math" view keeps the cursor at 1; adding one
      "Math" card then leaves a one-card view under a cursor of 1, where
      `flip_card` would index past the end. */
  method FlipOutOfRangePath() returns (s: Session)
    ensures s.Valid() && s.currentIndex == 1
    ensures View(s.store.cards, "Math") == [Card("Q3", "A3", "Math")]
    ensures !(View(s.store.cards, "Math") != [] ==> s.currentIndex < |View(s.store.cards, "Math")|)
  {
    s := MarkedOtherReview();
    var a, b, c := Card("Q1", "A1", "Other"), Card("Q2", "A2", "Other"), Card("Q3", "A3", "Math");
    assert Filter([a, b], "Math") == [] + ([] + Filter([], "Math"));
    var q: string, f: string, p: string, k: nat;
    q, f, p, k := s.NextFlashcard("Math", []);
    var msg := s.AddFlashcard("Q3", "A3", "Math");
    assert s.store.cards == [a, b, c];
    assert Filter([c], "Math") == [c] + Filter([], "Math");
    assert Filter([b, c], "Math") == [] + Filter([c], "Math");
    assert Filter([a, b, c], "Math") == [] + Filter([b, c], "Math");
  }

  /** Two flips leave the visibility flag as it was and show the same question. */
  method FlipTwice(s: Session, cat: string) returns (q1: string, a1: string, q2: string, a2: string)
    requires s.Valid()
    requires View(s.store.cards, cat) != [] ==> s.currentIndex < |View(s.store.cards, cat)|
    modifies s`showAnswer
    ensures s.showAnswer == old(s.showAnswer) && q1 == q2
    ensures var v := View(s.store.cards, cat); v != [] ==>
      (if old(s.showAnswer) then a1 == FlipPrompt && a2 == v[s.currentIndex].answer
       else a1 == v[s.currentIndex].answer && a2 == FlipPrompt)
  {
    q1, a1 := s.FlipCard(cat);
    q2, a2 := s.FlipCard(cat);
  }

  /** Toggling shuffle twice restores the flag; the two labels differ. */
  method ToggleShuffleTwice(s: Session) returns (first: string, second: string)
    requires s.Valid()
    modifies s`shuffleMode
    ensures s.shuffleMode == old(s.shuffleMode)
    ensures first == ShuffleLabel(!old(s.shuffleMode)) && second == ShuffleLabel(old(s.shuffleMode))
    ensures first != second
  {
    first := s.ToggleShuffle();
    second := s.ToggleShuffle();
  }
}
