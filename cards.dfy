/** The card store: flashcard records, the category filter that every session
    operation recomputes, and the in-place shuffle that the session applies to
    a filtered list. */
module Cards {

  /** One flashcard record `{question, answer, category}`.  The category is a
      free-form label: nothing checks it against the list the interface offers. */
  datatype Card = Card(question: string, answer: string, category: string)

  // ----- The category filter -----

  /** The cards of `s` whose category is `cat`, in the order of `s`
      (the list comprehension repeated in every session operation). */
  function Filter(s: seq<Card>, cat: string): (r: seq<Card>)
    ensures |r| <= |s|
  {
    if s == [] then []
    else (if s[0].category == cat then [s[0]] else []) + Filter(s[1..], cat)
  }

  /** The filtered view an operation works on: the whole store when the filter
      is the empty string (Python treats "" as false), the matching cards otherwise. */
  function View(s: seq<Card>, cat: string): (r: seq<Card>)
    ensures |r| <= |s|
  {
    if cat == "" then s else Filter(s, cat)
  }

  /** Filtering distributes over concatenation. */
  lemma {:induction false} FilterAppend(a: seq<Card>, b: seq<Card>, cat: string)
    ensures Filter(a + b, cat) == Filter(a, cat) + Filter(b, cat)
  {
    if a == [] {
      assert a + b == b;
    } else {
      assert (a + b)[0] == a[0] && (a + b)[1..] == a[1..] + b;
      FilterAppend(a[1..], b, cat);
      assert Filter(a, cat) == (if a[0].category == cat then [a[0]] else []) + Filter(a[1..], cat);
    }
  }

  /** Appending one card adds it at the end of every view it belongs to and
      leaves the other views as they were. */
  lemma ViewAppend(s: seq<Card>, c: Card, cat: string)
    ensures View(s + [c], cat)
      == View(s, cat) + (if cat == "" || c.category == cat then [c] else [])
  {
    FilterAppend(s, [c], cat);
    assert Filter([c], cat) == (if c.category == cat then [c] else []) + Filter([], cat);
  }

  /** A card occurs in the filtered list as often as in `s` if it has the
      category, and not at all otherwise. */
  lemma {:induction false} FilterCount(s: seq<Card>, cat: string, c: Card)
    ensures multiset(Filter(s, cat))[c] == if c.category == cat then multiset(s)[c] else 0
  {
    if s != [] {
      FilterCount(s[1..], cat, c);
      assert s == [s[0]] + s[1..];
      assert multiset(s) == multiset{s[0]} + multiset(s[1..]);
    }
  }

  /** The filtered list holds exactly the cards of `s` with category `cat`. */
  lemma FilterMembers(s: seq<Card>, cat: string, c: Card)
    ensures c in Filter(s, cat) <==> c in s && c.category == cat
  {
    FilterCount(s, cat, c);
  }

  /** Reordering the store reorders, but does not change, each filtered list. */
  lemma FilterOfPermutation(a: seq<Card>, b: seq<Card>, cat: string)
    requires multiset(a) == multiset(b)
    ensures multiset(Filter(a, cat)) == multiset(Filter(b, cat))
  {
    forall c: Card
      ensures multiset(Filter(a, cat))[c] == multiset(Filter(b, cat))[c]
    {
      FilterCount(a, cat, c);
      FilterCount(b, cat, c);
    }
  }

  /** The positions j >= i of `s` whose card has category `cat`, ascending. */
  function PositionsFrom(s: seq<Card>, cat: string, i: nat): (p: seq<nat>)
    requires i <= |s|
    ensures forall k :: 0 <= k < |p| ==> i <= p[k] < |s| && s[p[k]].category == cat
    ensures forall k, l :: 0 <= k < l < |p| ==> p[k] < p[l]
    ensures forall j :: i <= j < |s| && s[j].category == cat ==> j in p
    decreases |s| - i
  {
    if i == |s| then []
    else (if s[i].category == cat then [i] else []) + PositionsFrom(s, cat, i + 1)
  }

  /** Filter keeps the cards at exactly the positions with category `cat`, in
      ascending order of position: the k-th filtered card is the card at the
      k-th such position. */
  lemma {:induction false} FilterIsSubsequence(s: seq<Card>, cat: string, i: nat)
    requires i <= |s|
    ensures |Filter(s[i..], cat)| == |PositionsFrom(s, cat, i)|
    ensures forall k :: 0 <= k < |Filter(s[i..], cat)| ==>
      Filter(s[i..], cat)[k] == s[PositionsFrom(s, cat, i)[k]]
    decreases |s| - i
  {
    if i < |s| {
      FilterIsSubsequence(s, cat, i + 1);
      assert s[i..][1..] == s[i + 1..];
    }
  }

  // ----- The in-place shuffle -----

  /** The list with the elements at `i` and `j` exchanged. */
  function Swap<T>(s: seq<T>, i: nat, j: nat): (r: seq<T>)
    requires i < |s| && j < |s|
    ensures |r| == |s| && r[i] == s[j] && r[j] == s[i]
    ensures forall k :: 0 <= k < |s| && k != i && k != j ==> r[k] == s[k]
    ensures multiset(r) == multiset(s)
  {
    s[i := s[j]][j := s[i]]
  }

  /** Draw number `k` of the random source, reduced below `bound`; `rolls`
      stands for the values Python's generator would produce, and a draw past
      its end leaves the element where it is. */
  function Pick(rolls: seq<nat>, k: nat, bound: nat): (j: nat)
    requires bound > 0
    ensures j < bound
  {
    if k < |rolls| then rolls[k] % bound else bound - 1
  }

  /** Fisher-Yates as `random.shuffle` runs it: for i from `i` down to 1,
      exchange position i with a drawn position j <= i. */
  function ShuffleFrom<T>(s: seq<T>, rolls: seq<nat>, i: nat): (r: seq<T>)
    requires i < |s|
    ensures |r| == |s| && multiset(r) == multiset(s)
    decreases i
  {
    if i == 0 then s
    else ShuffleFrom(Swap(s, i, Pick(rolls, |s| - 1 - i, i + 1)), rolls, i - 1)
  }

  /** The order `random.shuffle` leaves `s` in for the draws `rolls`: a
      permutation of `s`. */
  function Shuffled<T>(s: seq<T>, rolls: seq<nat>): (r: seq<T>)
    ensures |r| == |s| && multiset(r) == multiset(s)
  {
    if s == [] then s else ShuffleFrom(s, rolls, |s| - 1)
  }

  /** A view as it is after the optional shuffle: as long as the view, and a
      permutation of it by Shuffled's contract. */
  function Arrange<T>(s: seq<T>, shuffle: bool, rolls: seq<nat>): (r: seq<T>)
    ensures |r| == |s|
  {
    if shuffle then Shuffled(s, rolls) else s
  }

  /** A Python list of cards: a mutable object that several names may share. */
  class Deck {
    var cards: seq<Card>

    constructor (cards: seq<Card>)
      ensures this.cards == cards
    {
      this.cards := cards;
    }

    /** `list.append`. */
    method Append(c: Card)
      modifies this
      ensures cards == old(cards) + [c]
    {
      cards := cards + [c];
    }

    /** `random.shuffle(list)`, in place. */
    method Shuffle(rolls: seq<nat>)
      modifies this
      ensures cards == Shuffled(old(cards), rolls)
      ensures multiset(cards) == multiset(old(cards))
    {
      var s := cards;
      if s == [] {
        return;
      }
      var i: nat := |s| - 1;
      while i > 0
        invariant i < |s|
        invariant |s| == |old(cards)|
        invariant ShuffleFrom(s, rolls, i) == Shuffled(old(cards), rolls)
        decreases i
      {
        var j := Pick(rolls, |s| - 1 - i, i + 1);
        s := Swap(s, i, j);
        i := i - 1;
      }
      cards := s;
    }
  }
}
