/** The session engine: the process-wide state of the study tool (review
    cursor, streak, shuffle flag, quiz position and score), the operations the
    interface calls, and the texts they return. */
module Session {
  import opened Text
  import opened Cards

  // ----- Fixed texts -----

  const FlipPrompt := "Click 'Flip'"
  const NoFlashcardsFound := "No flashcards found."
  const NoFlashcardsAvailable := "No flashcards available."
  const NoCardsToQuiz := "No cards to quiz."
  const EmptyProgress := "0 cards"
  const CorrectFeedback := "\U{2714}\U{FE0F} Correct!"
  const NextQuestionSeparator := "\n\nNext Question: "

  /** The wrong-answer feedback: never the correct-answer text, and it ends
      with the correct answer. */
  function IncorrectFeedback(answer: string): (r: string)
    ensures r != CorrectFeedback
    ensures |answer| <= |r| && r[|r| - |answer|..] == answer
  {
    var r := "\U{274C} Incorrect! The correct answer was: " + answer;
    assert r[0] != CorrectFeedback[0];
    r
  }

  /** The feedback for one quiz answer: the correct-answer text exactly on a
      hit; on a miss a text that names the correct answer at its end. */
  function Feedback(hit: bool, answer: string): (r: string)
    ensures hit <==> r == CorrectFeedback
    ensures !hit ==> |answer| <= |r| && r[|r| - |answer|..] == answer
  {
    if hit then CorrectFeedback else IncorrectFeedback(answer)
  }

  /** The confirmation of `add_flashcard`; the category sits at a fixed place. */
  function AddedMessage(cat: string): (r: string)
    ensures |r| == |cat| + 12 && r[10..|r| - 2] == cat
  {
    "Added to '" + cat + "'!"
  }

  /** `f"{index+1}/{n} cards"`: never the empty-view label. */
  function ProgressLabel(index: nat, n: nat): (r: string)
    ensures r != EmptyProgress
  {
    var r := NatToString(index + 1) + "/" + NatToString(n) + " cards";
    assert r[0] == NatToString(index + 1)[0] != EmptyProgress[0];
    r
  }

  /** `f"Quiz Done! Score: {score}/{n}"`: it ends with the digits of the quiz
      length, so the length can be read back from its end. */
  function DoneMessage(score: nat, n: nat): (r: string)
    ensures var b := NatToString(n);
      |b| < |r| && r[|r| - |b|..] == b && ParseDigits(r[|r| - |b|..]) == n
  {
    var b := NatToString(n);
    var r := "Quiz Done! Score: " + NatToString(score) + "/" + b;
    assert r[|r| - |b|..] == b;
    ParseNatToString(n);
    r
  }

  /** The label of the shuffle button: "Shuffle: On" exactly when shuffle is on. */
  function ShuffleLabel(on: bool): (r: string)
    ensures r == "Shuffle: On" || r == "Shuffle: Off"
    ensures r == "Shuffle: On" <==> on
  {
    "Shuffle: " + (if on then "On" else "Off")
  }

  // ----- Pure operations -----

  /** The theme switch: "dark" when the current theme text mentions "light"
      anywhere, "light" otherwise. */
  function ToggleTheme(current: string): (r: string)
    ensures r == "dark" || r == "light"
    ensures r == "dark" <==> exists i :: OccursAt(current, "light", i)
  {
    ContainsIff(current, "light");
    if Contains(current, "light") then "dark" else "light"
  }

  /** The quiz's answer check, `user.strip().lower() == correct.strip().lower()`:
      it holds exactly when the stripped answers are equal up to case,
      character by character. */
  function AnswersMatch(user: string, correct: string): (r: bool)
    ensures r <==> EqualIgnoringCase(Strip(user), Strip(correct))
  {
    LowerEqIff(Strip(user), Strip(correct));
    Lower(Strip(user)) == Lower(Strip(correct))
  }

  /** Whitespace typed around an answer never changes the verdict. */
  lemma AnswersMatchIgnoresPadding(p: string, t: string, q: string, correct: string)
    requires AllSpace(p) && AllSpace(q)
    requires t != [] ==> !IsSpace(t[0]) && !IsSpace(t[|t| - 1])
    ensures AnswersMatch(p + t + q, correct) <==> AnswersMatch(t, correct)
  {
    StripPadded(p, t, q);
    StripPadded([], t, []);
    assert [] + t + [] == t;
  }

  /** An answer typed with a space on either side matches the stored one. */
  lemma PaddedAnswerMatches()
    ensures AnswersMatch(" Paris ", "Paris")
  {
    var t := "Paris";
    assert !IsSpace(t[0]) && !IsSpace(t[|t| - 1]);
    AnswersMatchIgnoresPadding(" ", t, " ", t);
    assert " " + t + " " == " Paris ";
  }

  /** The progress label determines both the position and the size of the view. */
  lemma ProgressLabelInjective(i: nat, n: nat, i': nat, n': nat)
    requires ProgressLabel(i, n) == ProgressLabel(i', n')
    ensures i == i' && n == n'
  {
    var a, b := NatToString(i + 1), NatToString(n);
    var a', b' := NatToString(i' + 1), NatToString(n');
    var l := ProgressLabel(i, n);
    assert l == a + ['/'] + (b + " cards");
    assert l == a' + ['/'] + (b' + " cards");
    SplitAfterDigits(a, b + " cards", a', b' + " cards", '/');
    NatToStringInjective(i + 1, i' + 1);
    assert b == (b + " cards")[..|b + " cards"| - 6];
    assert b' == (b' + " cards")[..|b' + " cards"| - 6];
    NatToStringInjective(n, n');
  }

  /** After its fixed 18-character prefix, the final quiz message is the
      score's digits, a slash and the length's digits. */
  lemma DoneMessageTail(s: nat, n: nat)
    ensures 18 <= |DoneMessage(s, n)|
    ensures DoneMessage(s, n)[18..] == NatToString(s) + ['/'] + NatToString(n)
  {
    var prefix := "Quiz Done! Score: ";
    var x := NatToString(s) + ['/'] + NatToString(n);
    assert DoneMessage(s, n) == prefix + x;
    assert x == (prefix + x)[|prefix|..];
  }

  /** The final quiz message determines both the score and the quiz length. */
  lemma DoneMessageInjective(s: nat, n: nat, s': nat, n': nat)
    requires DoneMessage(s, n) == DoneMessage(s', n')
    ensures s == s' && n == n'
  {
    DoneMessageTail(s, n);
    DoneMessageTail(s', n');
    SplitAfterDigits(NatToString(s), NatToString(n), NatToString(s'), NatToString(n'), '/');
    NatToStringInjective(s, s');
    NatToStringInjective(n, n');
  }

  /** The confirmation names the category the card was added to. */
  lemma AddedMessageNamesCategory(cat: string, cat': string)
    requires AddedMessage(cat) == AddedMessage(cat')
    ensures cat == cat'
  {
    var m := AddedMessage(cat);
    assert cat == m[10..|m| - 2];
    assert cat' == AddedMessage(cat')[10..|m| - 2];
  }

  // ----- The stateful engine -----

  datatype SessionError = InvalidState

  datatype Result<T> = Ok(value: T) | Err(error: SessionError)

  /** All module-level state of the program.  `store` is the card list
      (`flashcards`, never rebound); `quizCards` is the list the current quiz
      runs over, which is the store object itself when the quiz was started
      with an empty filter. */
  class Session {
    const store: Deck
    var currentIndex: nat
    var showAnswer: bool
    var streak: nat
    var quizScore: nat
    var quizIndex: nat
    var quizCards: Deck
    var shuffleMode: bool

    /** The quiz never scores more answers than it has taken, and never runs
        past the end of its list. */
    ghost predicate Valid()
      reads this, quizCards
      ensures Valid() ==> quizScore <= |quizCards.cards|
    {
      quizScore <= quizIndex <= |quizCards.cards|
    }

    /** The state at program start. */
    constructor ()
      ensures Valid() && fresh(store) && fresh(quizCards) && store != quizCards
      ensures store.cards == [] && quizCards.cards == []
      ensures currentIndex == 0 && !showAnswer && streak == 0
      ensures quizScore == 0 && quizIndex == 0 && !shuffleMode
    {
      store := new Deck([]);
      quizCards := new Deck([]);
      currentIndex, showAnswer, streak := 0, false, 0;
      quizScore, quizIndex, shuffleMode := 0, 0, false;
    }

    /** The category filter: a fresh list of the matching cards, or the store
        object itself when the filter is empty. */
    method Filtered(cat: string) returns (view: Deck)
      ensures cat == "" ==> view == store
      ensures cat != "" ==> fresh(view)
      ensures view.cards == View(store.cards, cat)
    {
      if cat == "" {
        view := store;
      } else {
        view := new Deck(Filter(store.cards, cat));
      }
    }

    /** `add_flashcard`: appends one card; never fails. */
    method AddFlashcard(question: string, answer: string, cat: string) returns (msg: string)
      requires Valid()
      modifies store
      ensures Valid()
      ensures store.cards == old(store.cards) + [Card(question, answer, cat)]
      ensures quizCards.cards == if quizCards == store then store.cards else old(quizCards.cards)
      ensures msg == AddedMessage(cat)
    {
      store.Append(Card(question, answer, cat));
      msg := AddedMessage(cat);
    }

    /** `next_flashcard`: shows the card under the cursor, wrapping the cursor
        (and forfeiting the streak) when it is past the end of the view. */
    method NextFlashcard(cat: string, rolls: seq<nat>)
      returns (question: string, answerField: string, progress: string, streakOut: nat)
      requires Valid()
      modifies this, store
      ensures Valid()
      ensures shuffleMode == old(shuffleMode) && quizCards == old(quizCards)
      ensures quizScore == old(quizScore) && quizIndex == old(quizIndex)
      ensures quizCards.cards == if quizCards == store then store.cards else old(quizCards.cards)
      ensures streakOut == streak
      ensures View(old(store.cards), cat) == [] ==>
        question == NoFlashcardsFound && answerField == "" && progress == EmptyProgress
        && currentIndex == old(currentIndex) && showAnswer == old(showAnswer)
        && streak == old(streak) && store.cards == old(store.cards)
      ensures var v := View(old(store.cards), cat); v != [] ==>
        var w := Arrange(v, shuffleMode, rolls);
        (old(currentIndex) >= |v| ==> currentIndex == 0 && streak == 0)
        && (old(currentIndex) < |v| ==> currentIndex == old(currentIndex) && streak == old(streak))
        && currentIndex < |v| && !showAnswer
        && question == w[currentIndex].question && answerField == FlipPrompt
        && progress == ProgressLabel(currentIndex, |v|)
        && store.cards == (if cat == "" then w else old(store.cards))
    {
      var filtered := Filtered(cat);
      if filtered.cards == [] {
        return NoFlashcardsFound, "", EmptyProgress, streak;
      }
      ghost var v := filtered.cards;
      if shuffleMode {
        filtered.Shuffle(rolls);
      }
      assert filtered.cards == Arrange(v, shuffleMode, rolls) && |filtered.cards| == |v|;
      assert store.cards == if cat == "" then filtered.cards else old(store.cards);
      assert quizCards.cards == if quizCards == store then store.cards else old(quizCards.cards);
      if currentIndex >= |filtered.cards| {
        currentIndex := 0;
        streak := 0;
      }
      showAnswer := false;
      var card := filtered.cards[currentIndex];
      return card.question, FlipPrompt, ProgressLabel(currentIndex, |filtered.cards|), streak;
    }

    /** `flip_card`: toggles answer visibility.  The code indexes the view
        without a bounds check, so a cursor past the end of a non-empty view
        is excluded. */
    method FlipCard(cat: string) returns (question: string, answerField: string)
      requires Valid()
      requires View(store.cards, cat) != [] ==> currentIndex < |View(store.cards, cat)|
      modifies this`showAnswer
      ensures Valid()
      ensures View(store.cards, cat) == [] ==>
        question == NoFlashcardsAvailable && answerField == "" && showAnswer == old(showAnswer)
      ensures var v := View(store.cards, cat); v != [] ==>
        showAnswer == !old(showAnswer) && question == v[currentIndex].question
        && answerField == (if showAnswer then v[currentIndex].answer else FlipPrompt)
    {
      var filtered := Filtered(cat);
      if filtered.cards == [] {
        return NoFlashcardsAvailable, "";
      }
      var card := filtered.cards[currentIndex];
      if showAnswer {
        showAnswer := false;
        return card.question, FlipPrompt;
      } else {
        showAnswer := true;
        return card.question, card.answer;
      }
    }

    /** `mark_answer`: scores the card, steps the cursor with its own wrap
        (which keeps the streak), then shows the next card. */
    method MarkAnswer(correct: bool, cat: string, rolls: seq<nat>)
      returns (question: string, answerField: string, progress: string, streakOut: nat)
      requires Valid()
      modifies this, store
      ensures Valid()
      ensures shuffleMode == old(shuffleMode) && quizCards == old(quizCards)
      ensures quizScore == old(quizScore) && quizIndex == old(quizIndex)
      ensures quizCards.cards == if quizCards == store then store.cards else old(quizCards.cards)
      ensures streak == (if correct then old(streak) + 1 else 0) && streakOut == streak
      ensures var n := |View(old(store.cards), cat)|;
        currentIndex == if old(currentIndex) + 1 >= n then 0 else old(currentIndex) + 1
      ensures View(old(store.cards), cat) == [] ==>
        question == NoFlashcardsFound && answerField == "" && progress == EmptyProgress
        && showAnswer == old(showAnswer) && store.cards == old(store.cards)
      ensures var v := View(old(store.cards), cat); v != [] ==>
        var w := Arrange(v, shuffleMode, rolls);
        currentIndex < |v| && !showAnswer
        && question == w[currentIndex].question && answerField == FlipPrompt
        && progress == ProgressLabel(currentIndex, |v|)
        && store.cards == (if cat == "" then w else old(store.cards))
    {
      if correct {
        streak := streak + 1;
      } else {
        streak := 0;
      }
      var filtered := Filtered(cat);
      currentIndex := currentIndex + 1;
      if currentIndex >= |filtered.cards| {
        currentIndex := 0;
      }
      question, answerField, progress, streakOut := NextFlashcard(cat, rolls);
    }

    /** `toggle_shuffle`. */
    method ToggleShuffle() returns (status: string)
      requires Valid()
      modifies this`shuffleMode
      ensures Valid()
      ensures shuffleMode == !old(shuffleMode)
      ensures status == ShuffleLabel(shuffleMode)
    {
      shuffleMode := !shuffleMode;
      status := ShuffleLabel(shuffleMode);
    }

    /** `start_quiz`: takes the filtered view (the store itself for an empty
        filter), shuffles it in place when shuffle is on, and resets the score
        and position. */
    method StartQuiz(cat: string, rolls: seq<nat>) returns (question: string, answerField: string)
      requires Valid()
      modifies this, store
      ensures Valid()
      ensures currentIndex == old(currentIndex) && showAnswer == old(showAnswer)
      ensures streak == old(streak) && shuffleMode == old(shuffleMode)
      ensures var w := Arrange(View(old(store.cards), cat), shuffleMode, rolls);
        quizCards.cards == w && quizScore == 0 && quizIndex == 0
        && (w == [] ==> question == NoCardsToQuiz)
        && (w != [] ==> question == w[0].question)
        && answerField == ""
      ensures cat == "" ==> quizCards == store
      ensures cat != "" ==> fresh(quizCards) && store.cards == old(store.cards)
    {
      quizCards := Filtered(cat);
      if shuffleMode {
        quizCards.Shuffle(rolls);
      }
      quizScore := 0;
      quizIndex := 0;
      if quizCards.cards == [] {
        return NoCardsToQuiz, "";
      }
      return quizCards.cards[quizIndex].question, "";
    }

    /** `submit_quiz_answer`: checks the answer to the current question and
        moves on.  The code indexes the quiz list without a bounds check, so
        a finished or never-started quiz is excluded. */
    method SubmitQuizAnswer(user: string) returns (text: string, answerField: string)
      requires Valid()
      requires quizIndex < |quizCards.cards|
      modifies this`quizIndex, this`quizScore
      ensures Valid()
      ensures var hit := AnswersMatch(user, quizCards.cards[old(quizIndex)].answer);
        quizScore == old(quizScore) + (if hit then 1 else 0)
        && quizIndex == old(quizIndex) + 1
        && (quizIndex == |quizCards.cards| ==> text == DoneMessage(quizScore, |quizCards.cards|))
        && (quizIndex < |quizCards.cards| ==>
              text == Feedback(hit, quizCards.cards[old(quizIndex)].answer)
                      + NextQuestionSeparator + quizCards.cards[quizIndex].question)
      ensures answerField == ""
    {
      var correctAnswer := quizCards.cards[quizIndex].answer;
      var feedback := "";
      var hit := AnswersMatch(user, correctAnswer);
      if hit {
        quizScore := quizScore + 1;
        feedback := CorrectFeedback;
      } else {
        feedback := IncorrectFeedback(correctAnswer);
      }
      quizIndex := quizIndex + 1;
      if quizIndex >= |quizCards.cards| {
        return DoneMessage(quizScore, |quizCards.cards|), "";
      }
      var nextQuestion := quizCards.cards[quizIndex].question;
      return feedback + NextQuestionSeparator + nextQuestion, "";
    }

    /** A checked submit: with no question left it reports InvalidState and
        changes nothing; otherwise it behaves as SubmitQuizAnswer. */
    method TrySubmitQuizAnswer(user: string) returns (r: Result<string>)
      requires Valid()
      modifies this`quizIndex, this`quizScore
      ensures Valid()
      ensures old(quizIndex) >= |quizCards.cards| ==>
        r == Err(InvalidState) && quizIndex == old(quizIndex) && quizScore == old(quizScore)
      ensures old(quizIndex) < |quizCards.cards| ==>
        var hit := AnswersMatch(user, quizCards.cards[old(quizIndex)].answer);
        r.Ok? && quizScore == old(quizScore) + (if hit then 1 else 0)
        && quizIndex == old(quizIndex) + 1
        && (quizIndex == |quizCards.cards| ==> r.value == DoneMessage(quizScore, |quizCards.cards|))
        && (quizIndex < |quizCards.cards| ==>
              r.value == Feedback(hit, quizCards.cards[old(quizIndex)].answer)
                         + NextQuestionSeparator + quizCards.cards[quizIndex].question)
    {
      if quizIndex >= |quizCards.cards| {
        return Err(InvalidState);
      }
      var text, _ := SubmitQuizAnswer(user);
      r := Ok(text);
    }
  }
}
