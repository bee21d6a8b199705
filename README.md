# Brain Bites session engine in Dafny

This project models the session engine of Brain Bites. Brain Bites is a flashcard study tool. Its cards have a question, an answer and a category. It offers two modes over a category-filtered view of the cards:

- **Review mode** has a cursor, an answer that can be shown or hidden, and a streak of correct marks.
- **Quiz mode** keeps a list of questions, a position in that list and a score.

All of the program's state is module-level. Every operation changes that state in place and returns the texts the interface shows.

Files:

- `text.dfy` (module `Text`): the Python text operations the engine uses. These are the decimal rendering of integers in f-strings, `str.strip()`, `str.lower()` and the substring test `pat in s`.
- `cards.dfy` (module `Cards`): the `Card` record and the category filter (`Filter`, and `View` for the empty-filter case). It also holds `random.shuffle` as Fisher–Yates over caller-supplied draws (`Shuffled`), and `Deck`, a class for a Python list object that several names may share.
- `session.dfy` (module `Session`): the class `Session`, whose fields are the program's globals. Each operation is a method of it. The module also holds the theme toggle, the returned texts and the lemmas about them.
- `scenarios.dfy` (module `Scenarios`): sample sessions that call the methods. They are a three-card quiz, an empty review, a streak across the cursor's wrap, quizzes over the shared store and over a fresh list, and a shuffled category review. Each is proved from the methods' contracts alone.

The aliasing of the code is kept. With an empty filter, the code uses the store list itself rather than a copy. The model does the same: `Session.Filtered` returns the `store` object, and `StartQuiz` then sets `quizCards` to that same object. Three consequences follow, and each is proved:

- A shuffle during review permutes the store in place.
- A quiz started with an empty filter runs over the live store, so cards added later are asked in that quiz (`Scenarios.WholeStoreQuizSeesLaterCards`).
- A shuffle during review also reorders such a running quiz.

A quiz started with a category runs over a fresh list (`Scenarios.CategoryQuizIgnoresLaterCards`).

Some behaviour of the code is easy to misread. The model follows the code in each case:

- The quiz list is not a point-in-time copy. For the empty filter it is the store itself.
- Completing a pass in review does not forfeit the streak. `mark_answer` wraps the cursor without touching the streak. Apart from an incorrect mark, the streak is reset only when `next_flashcard` finds the cursor at or past the end of the view. Cards are never removed and a shuffle keeps the length, so that happens only when a different filter selects a view smaller than the cursor. `Scenarios.StreakAcrossWrap` shows both cases.
- `flip_card` on an empty view returns early and does not toggle anything.
- With shuffle on and a category selected, `next_flashcard` shuffles a fresh copy of the view and shows the card at the cursor in that copy (lines 30, 36, 43). `flip_card` builds the view again, unshuffled, and reads the card at the same cursor (lines 48, 53). So the question and answer it shows can belong to a different card from the one just shown. `Scenarios.ShuffledCategoryFlip` gives such a case: the review shows "QB", and the flip then shows "QA" with the answer "AA".
- `flip_card` can index out of range too (line 53), and the interface can reach it. Review two "Other" cards with the empty filter and mark one, so the cursor is 1. Switch to "Math": the view is empty, so `next_flashcard` returns early and the cursor stays at 1. Add a "Math" card and flip "Math": the one-card view is indexed at 1. `FlipCard` keeps this as its precondition, and `Scenarios.FlipOutOfRangePath` reaches a state that violates it.
- `submit_quiz_answer` with no question left indexes out of range. `SubmitQuizAnswer` keeps this as a precondition. `TrySubmitQuizAnswer` is a checked variant that reports `InvalidState`; it is an addition and not part of the code.

Randomness is a parameter. Each operation that may shuffle takes `rolls: seq<nat>`, the values the random generator would produce. Draw k is reduced modulo the bound of step k. The model proves that the result is a permutation, whatever the draws.

## Model

| member | source | states |
|---|---|---|
| Session.Session.Valid | Brain_Bites_web.py:88-106 | The quiz invariant kept by every method: the score never exceeds the position, and the position never passes the end of the quiz list. So the score never exceeds the quiz length. |
| Session.Session.constructor | Brain_Bites_web.py:5-13 | The start state: an empty store, an empty quiz list that is a different object from the store, all counters 0, answer hidden, shuffle off. |
| Session.Session.Filtered | Brain_Bites_web.py:30 | An empty filter returns the store object itself. Any other filter returns a fresh list. Either way the contents are `View(store, cat)`. |
| Cards.Filter | Brain_Bites_web.py:30 | The list comprehension over the store: the cards whose category equals the filter, in store order. Its contract bounds the length by the store's; `FilterIsSubsequence` and `PositionsFrom` say which cards it keeps. |
| Cards.View | Brain_Bites_web.py:48 | The view each operation builds: the store itself when the filter is the empty string (Python treats "" as false), `Filter` otherwise. Its contract bounds the length by the store's. |
| Cards.FilterIsSubsequence | Brain_Bites_web.py:30 | The k-th filtered card is the store card at the k-th position whose category equals the filter. Positions are taken in ascending order, so store order is kept. |
| Cards.PositionsFrom | Brain_Bites_web.py:30 | The positions the filter selects are ascending and in range, carry the category, and include every position that has it. |
| Cards.FilterCount | Brain_Bites_web.py:48 | A card occurs in the filtered list as many times as in the store if it has the category, and not at all otherwise. |
| Cards.FilterMembers | Brain_Bites_web.py:68 | A card is in the filtered list exactly when it is in the store with the filtered category. |
| Cards.FilterAppend | Brain_Bites_web.py:85 | Filtering a concatenation gives the concatenation of the filtered parts. |
| Cards.ViewAppend | Brain_Bites_web.py:24-30 | After an append, every view the new card matches gains it at the end, and every other view is unchanged. |
| Cards.FilterOfPermutation | Brain_Bites_web.py:35-36 | Shuffling the store in place keeps the cards of every category view, up to order. |
| Cards.Pick | Brain_Bites_web.py:36 | Draw k reduced below the bound of its step: the result is always a valid position. |
| Cards.Arrange | Brain_Bites_web.py:86-87 | The view after the optional `random.shuffle`. It keeps the length; with shuffle on it is `Shuffled`, a permutation of the view. |
| Cards.Swap | Brain_Bites_web.py:36 | Swapping two positions exchanges those two elements, keeps every other element and keeps the multiset. |
| Cards.ShuffleFrom | Brain_Bites_web.py:36 | Each Fisher–Yates step from position i down to 1 keeps the length and the multiset of the list. |
| Cards.Shuffled | Brain_Bites_web.py:87 | For any draws, the shuffled list is a permutation of the input: same length, same multiset. |
| Cards.Deck.Shuffle | Brain_Bites_web.py:36 | The in-place loop leaves the list equal to `Shuffled(old list, draws)`, a permutation of it. |
| Cards.Deck.Append | Brain_Bites_web.py:25 | The list becomes the old list plus the one new card at the end. |
| Session.Session.AddFlashcard | Brain_Bites_web.py:24-26 | Appends exactly `Card(q, a, cat)` and keeps every earlier card. The precondition admits every input, so it never fails. Returns `"Added to '" + cat + "'!"`. A quiz that shares the store grows with it. |
| Session.AddedMessage | Brain_Bites_web.py:26 | The text `f"Added to '{category}'!"`. The category sits at a fixed place in it, 10 characters from the start and 2 from the end. |
| Session.AddedMessageNamesCategory | Brain_Bites_web.py:26 | The confirmation text determines the category. |
| Session.Session.NextFlashcard | Brain_Bites_web.py:28-44 | Empty view: returns the "No flashcards found." sentinel with "0 cards" and the streak, and changes nothing. Non-empty view of size n: a cursor at or past n becomes 0 and so does the streak, otherwise both are kept. Afterwards the cursor is below n and the answer is hidden. Returns the question of the (possibly shuffled) view at the cursor, "Click 'Flip'" and the label `{cursor+1}/{n} cards`. With an empty filter the store becomes the shuffled view; otherwise the store is unchanged. |
| Session.ProgressLabel | Brain_Bites_web.py:44 | The text `f"{current_index+1}/{len(filtered)} cards"`. It is never the empty-view label "0 cards", because the position it shows starts at 1. |
| Session.ProgressLabelInjective | Brain_Bites_web.py:44 | The progress label determines both the cursor position and the view size. |
| Text.NatToString | Brain_Bites_web.py:44 | Decimal rendering gives a non-empty string of digits with no leading zero. It starts with "0" exactly when the number is 0. |
| Text.ParseNatToString | Brain_Bites_web.py:107 | Reading the decimal digits back gives the number: the rendering has an inverse. |
| Session.Session.FlipCard | Brain_Bites_web.py:46-59 | Empty view: returns "No flashcards available." and "", and changes nothing. Otherwise it requires the cursor to be inside the view, since the code indexes without a check. It toggles the answer's visibility and changes nothing else. The second text is the card's answer when visibility becomes true and "Click 'Flip'" when it becomes false. |
| Scenarios.FlipTwice | Brain_Bites_web.py:53-59 | Two flips restore the visibility flag and show the same question; the two answer texts are the answer and the prompt, in the order set by the starting flag. |
| Session.Session.MarkAnswer | Brain_Bites_web.py:61-73 | The stored and returned streak is the old streak plus 1 when correct and 0 otherwise, even on an empty view. The cursor becomes old+1 if that is below n, else 0. `mark_answer`'s own wrap keeps the streak, so the reset inside `next_flashcard` never fires. The display is then that of `next_flashcard` at the new cursor. |
| Scenarios.StreakAcrossWrap | Brain_Bites_web.py:38-40 | Marking past the end of a two-card view wraps to "1/2 cards" with the streak at 2. Viewing a smaller category afterwards finds the cursor past its end and resets the streak to 0. |
| Session.ToggleTheme | Brain_Bites_web.py:75-76 | Returns "dark" exactly when the current text contains "light" at some position, and "light" otherwise. |
| Text.Contains | Brain_Bites_web.py:76 | The substring test `pat in s`, a left-to-right scan of start positions. A match needs the pattern to be no longer than the text, and the empty pattern always matches. `ContainsIff` gives the full characterisation. |
| Text.ContainsIff | Brain_Bites_web.py:76 | The substring scan holds exactly when the pattern occurs at some position of the text. |
| Session.ShuffleLabel | Brain_Bites_web.py:81 | The label is "Shuffle: On" or "Shuffle: Off", and it is "Shuffle: On" exactly when shuffle is on. |
| Session.Session.ToggleShuffle | Brain_Bites_web.py:78-81 | Negates the shuffle flag and returns "Shuffle: On" or "Shuffle: Off" for the new value. |
| Scenarios.ToggleShuffleTwice | Brain_Bites_web.py:78-81 | Toggling twice restores the flag, and the two labels differ. |
| Session.Session.StartQuiz | Brain_Bites_web.py:83-92 | Score and position become 0 in all cases. The quiz list is the filtered view, shuffled when shuffle is on. With an empty filter it is the store object itself; otherwise it is fresh and the store is unchanged. An empty list returns "No cards to quiz." and ""; otherwise it returns the first question and "". |
| Session.Session.SubmitQuizAnswer | Brain_Bites_web.py:94-111 | Requires a question left, since the code indexes without a check. The score goes up by 1 exactly when the stripped, lower-cased answers are equal. The position goes up by 1. The invariant score <= position <= length is kept. At the end it returns "Quiz Done! Score: {score}/{n}" and the last feedback is not shown. Otherwise it returns the feedback, then "\n\nNext Question: ", then the next question. |
| Session.Feedback | Brain_Bites_web.py:99-103 | The feedback is the correct-answer text exactly on a hit. On a miss it is a text that ends with the correct answer. |
| Session.IncorrectFeedback | Brain_Bites_web.py:103 | The wrong-answer text is never the correct-answer text, and it ends with the correct answer. |
| Session.Session.TrySubmitQuizAnswer | Brain_Bites_web.py:94-96 | With no question left, returns `InvalidState` and changes nothing. Otherwise it behaves as `SubmitQuizAnswer`. |
| Session.DoneMessage | Brain_Bites_web.py:107 | The text `f"Quiz Done! Score: {quiz_score}/{len(quiz_mode_cards)}"`. It ends with the digits of the quiz length, and reading those digits gives the length back. |
| Session.DoneMessageTail | Brain_Bites_web.py:107 | After its fixed prefix, the message is the score's digits, then "/", then the length's digits. |
| Session.DoneMessageInjective | Brain_Bites_web.py:107 | The final message determines both the score and the quiz length. |
| Session.AnswersMatch | Brain_Bites_web.py:99 | The answer test `user.strip().lower() == correct.strip().lower()`. It holds exactly when the stripped answers are equal up to case, character by character. |
| Session.AnswersMatchIgnoresPadding | Brain_Bites_web.py:99 | Whitespace typed around an answer never changes whether it matches. |
| Session.PaddedAnswerMatches | Brain_Bites_web.py:99 | " Paris " matches "Paris". |
| Text.IsSpace | Brain_Bites_web.py:99 | The characters below 128 that `str.isspace()` accepts: space, tab, line feed, carriage return, vertical tab, form feed and the separators U+001C to U+001F. None of them is a printable character. |
| Text.Strip | Brain_Bites_web.py:99 | `str.strip()`: the result is no longer than the input, and neither of its ends is whitespace. `StripIsMiddle` says which slice of the input it is. |
| Text.StripIsMiddle | Brain_Bites_web.py:99 | Strip returns the slice between the leading and the trailing whitespace. Only whitespace lies outside it, and it neither starts nor ends with whitespace. |
| Text.TrimLeftSpec | Brain_Bites_web.py:99 | Trimming the left end returns a suffix. What it dropped is all whitespace, and the result does not start with whitespace. |
| Text.TrimRightSpec | Brain_Bites_web.py:99 | Trimming the right end returns a prefix. What it dropped is all whitespace, and the result does not end with whitespace. |
| Text.StripPadded | Brain_Bites_web.py:99 | Stripping whitespace padding around a text that has no whitespace at its ends gives back that text. |
| Text.Lower | Brain_Bites_web.py:99 | `str.lower()`: keeps the length. `LowerSpec` gives the character at each position. |
| Text.LowerSpec | Brain_Bites_web.py:99 | Lower-casing keeps the length and maps each character on its own. |
| Text.LowerEqIff | Brain_Bites_web.py:99 | Two texts lower-case to the same text exactly when they are equal ignoring case. |
| Scenarios.MathQuiz | Brain_Bites_web.py:83-111 | Three "Math" cards are quizzed with the answers "2", "5" and "6". The results are "1+1"; the correct marker then "2+2"; feedback naming "4" then "3+3"; and "Quiz Done! Score: 2/3". A fourth answer is rejected with `InvalidState`. |
| Scenarios.ShuffledCategoryFlip | Brain_Bites_web.py:28-59 | With two "Math" cards, shuffle on and the draw 0, the review shows "QB" from the shuffled copy. The flip that follows shows "QA" and its answer "AA" from the unshuffled view. |
| Scenarios.FlipOutOfRangePath | Brain_Bites_web.py:28-73 | A mark in a two-card review, a switch to an empty category and one added card leave the cursor at 1 over a one-card view. That is the state in which line 53 indexes out of range. |
| Scenarios.EmptyReview | Brain_Bites_web.py:32-33 | Reviewing an empty store returns "No flashcards found.", "0 cards" and streak 0. |
| Scenarios.WholeStoreQuizSeesLaterCards | Brain_Bites_web.py:85 | A quiz started with the empty filter asks a card that was added after it started. |
| Scenarios.CategoryQuizIgnoresLaterCards | Brain_Bites_web.py:85 | A quiz started with a category ends after its own cards and ignores a card added later. |

## Left out

- The Gradio interface, the event wiring and `demo.launch()` (Brain_Bites_web.py:113-168): UI plumbing over a foreign library. The interface is treated as a caller of the `Session` methods.
- Randomness of `random.shuffle` (lines 36 and 87): the draws are the `rolls` parameter. The model does not capture the distribution of the draws, or how Python's generator reduces a draw to the range 0..i.
- Cards.Deck.Shuffle: the draw for step k is `rolls[k] % (i+1)`, and a missing draw leaves the element in place. This is a stand-in for `randbelow`. Only the permutation property is claimed about real shuffles.
- Unicode semantics of `str.strip()` and `str.lower()`: the model uses the ASCII characters that Python treats as whitespace and maps only A–Z to lower case. Non-ASCII whitespace (such as U+00A0) and non-ASCII case mappings are not modelled.
- The `categories` list (lines 16-20): informational only, and nothing checks categories against it.
- The unused `theme_mode` global (line 9).
- The emoji in the feedback texts are plain character constants, with no other meaning.
- A filter of `None`: the interface always passes a string, so the filter is a `string` and only the empty string is false.
- The decimal rendering covers the non-negative integers the program formats. The counters are never negative, so they are `nat`.
