/** The pair-matching game: up to six practice words give a shuffled deck
    of two cards each (its Latin word and its English meaning); the learner
    clicks one card, then another, and a Latin/English pair of the same
    vocabulary entry is matched. */
module Matching {
  import opened Js
  import opened Util
  import opened Database
  import opened Shuffle
  import opened NumberText

  datatype Side = Latin | English

  /** The card id `latin-${index}` / `english-${index}`: a side and the
      word's position among the game words. */
  datatype CardId = CardId(side: Side, index: nat)

  datatype MatchCard = MatchCard(
    id: CardId, text: string, vocabId: int, side: Side,
    isMatched: bool, isSelected: bool)

  /** What a card shows and is, leaving out its two flags. */
  function Face(c: MatchCard): MatchCard {
    c.(isMatched := false, isSelected := false)
  }

  const MaxGameWords: nat := 6

  /** `Math.min(6, practiceWords.length)` */
  function GameWordCount(n: nat): (k: nat)
    ensures k <= MaxGameWords && k <= n
    ensures k == MaxGameWords || k == n
  {
    if n < MaxGameWords then n else MaxGameWords
  }

  /** The two cards the deck builder pushes for the game word at `index`. */
  function Pair(p: PracticeWord, index: nat): (cards: seq<MatchCard>)
    ensures |cards| == 2
    ensures cards[0].side == Latin && cards[1].side == English
    ensures cards[0].vocabId == cards[1].vocabId == p.vocabulary.id
  {
    [ MatchCard(CardId(Latin, index), p.vocabulary.latin, p.vocabulary.id, Latin, false, false),
      MatchCard(CardId(English, index), p.vocabulary.english, p.vocabulary.id, English, false, false) ]
  }

  /** The unshuffled deck: the pairs of the game words, in order. */
  function Deck(words: seq<PracticeWord>): (d: seq<MatchCard>)
    ensures |d| == 2 * |words|
  {
    DeckOf(words, |words|)
  }

  /** The pairs of the first n game words. */
  function DeckOf(words: seq<PracticeWord>, n: nat): (d: seq<MatchCard>)
    requires n <= |words|
    ensures |d| == 2 * n
  {
    if n == 0 then [] else DeckOf(words, n - 1) + Pair(words[n - 1], n - 1)
  }

  /** Card 2i is the Latin card of word i and card 2i + 1 its English card;
      every card starts unmatched and unselected. */
  lemma DeckShape(words: seq<PracticeWord>)
    ensures forall i :: 0 <= i < |words| ==>
      Deck(words)[2 * i] == Pair(words[i], i)[0] && Deck(words)[2 * i + 1] == Pair(words[i], i)[1]
    ensures forall k :: 0 <= k < |Deck(words)| ==> !Deck(words)[k].isMatched && !Deck(words)[k].isSelected
  {
    DeckOfShape(words, |words|);
  }

  lemma {:induction false} DeckOfShape(words: seq<PracticeWord>, n: nat)
    requires n <= |words|
    ensures forall i :: 0 <= i < n ==>
      DeckOf(words, n)[2 * i] == Pair(words[i], i)[0] && DeckOf(words, n)[2 * i + 1] == Pair(words[i], i)[1]
    ensures forall k :: 0 <= k < 2 * n ==> !DeckOf(words, n)[k].isMatched && !DeckOf(words, n)[k].isSelected
  {
    if n > 0 {
      DeckOfShape(words, n - 1);
      var d := DeckOf(words, n - 1);
      assert DeckOf(words, n) == d + Pair(words[n - 1], n - 1);
      assert forall k :: 0 <= k < 2 * (n - 1) ==> DeckOf(words, n)[k] == d[k];
    }
  }

  /** No two cards share an id. */
  predicate DistinctIds(cards: seq<MatchCard>) {
    forall i, j :: 0 <= i < j < |cards| ==> cards[i].id != cards[j].id
  }

  /** Shuffling a deck keeps its ids distinct. */
  lemma PermutationKeepsIds(a: seq<MatchCard>, b: seq<MatchCard>)
    requires multiset(a) == multiset(b) && DistinctIds(a)
    ensures DistinctIds(b)
  {
    forall i, j | 0 <= i < j < |b| ensures b[i].id != b[j].id {
      if b[i].id == b[j].id {
        assert b[i] in multiset(a) && b[j] in multiset(a);
        var p :| 0 <= p < |a| && a[p] == b[i];
        var q :| 0 <= q < |a| && a[q] == b[j];
        assert p == q by {
          if p < q { } else if q < p { }
        }
        Twice(b, i, j);
        Once(a, p);
        assert false;
      }
    }
  }

  /** A value at two positions is counted at least twice. */
  lemma Twice<T>(s: seq<T>, i: nat, j: nat)
    requires i < j < |s| && s[i] == s[j]
    ensures multiset(s)[s[i]] >= 2
  {
    assert s == s[..j] + s[j..];
    assert s[i] in s[..j];
    assert s[j..][0] == s[j];
  }

  /** A card whose id no other card has is counted once. */
  lemma Once(s: seq<MatchCard>, p: nat)
    requires p < |s| && DistinctIds(s)
    ensures multiset(s)[s[p]] == 1
  {
    assert s == s[..p] + [s[p]] + s[p + 1..];
    assert s[p] !in s[..p];
    assert s[p] !in s[p + 1..];
  }

  /** Every card's id names its own position: no two cards share an id, and
      the two cards of a word match each other. */
  lemma DeckIds(words: seq<PracticeWord>)
    ensures forall k :: 0 <= k < |Deck(words)| ==>
      Deck(words)[k].id == CardId(if k % 2 == 0 then Latin else English, k / 2)
    ensures DistinctIds(Deck(words))
    ensures forall i :: 0 <= i < |words| ==> IsMatch(Deck(words)[2 * i], Deck(words)[2 * i + 1])
  {
    DeckShape(words);
    forall k | 0 <= k < |Deck(words)|
      ensures Deck(words)[k].id == CardId(if k % 2 == 0 then Latin else English, k / 2)
    {
      var i := k / 2;
      if k % 2 == 0 {
        assert Deck(words)[2 * i] == Pair(words[i], i)[0];
      } else {
        assert Deck(words)[2 * i + 1] == Pair(words[i], i)[1];
      }
    }
  }

  /** initialCards before its shuffle: a loop that pushes two cards per word. */
  method BuildDeck(words: seq<PracticeWord>) returns (cards: seq<MatchCard>)
    ensures cards == Deck(words)
  {
    cards := [];
    var index := 0;
    while index < |words|
      invariant 0 <= index <= |words|
      invariant cards == DeckOf(words, index)
    {
      cards := cards + Pair(words[index], index);
      index := index + 1;
    }
  }

  /** The match test of a second click: a card never matches itself, and
      the test does not depend on which card was clicked first. */
  function IsMatch(first: MatchCard, second: MatchCard): (m: bool)
    ensures m ==> first != second
    ensures m == (second.vocabId == first.vocabId && second.side != first.side)
  {
    first.vocabId == second.vocabId && first.side != second.side
  }

  /** No two game words share a vocabulary entry. */
  predicate DistinctVocab(words: seq<PracticeWord>) {
    forall i, j :: 0 <= i < j < |words| ==> words[i].vocabulary.id != words[j].vocabulary.id
  }

  /** In a deck of distinct words, two cards match exactly when they are the
      two cards of one word. */
  lemma DeckMatches(words: seq<PracticeWord>, a: nat, b: nat)
    requires DistinctVocab(words)
    requires a < 2 * |words| && b < 2 * |words|
    ensures IsMatch(Deck(words)[a], Deck(words)[b]) <==> a / 2 == b / 2 && a != b
  {
    DeckShape(words);
    var d := Deck(words);
    assert d[a] == Pair(words[a / 2], a / 2)[a % 2] by {
      assert a == 2 * (a / 2) + a % 2;
    }
    assert d[b] == Pair(words[b / 2], b / 2)[b % 2] by {
      assert b == 2 * (b / 2) + b % 2;
    }
    if a / 2 != b / 2 {
      assert words[a / 2].vocabulary.id != words[b / 2].vocabulary.id;
    }
  }

  /** `prev.map(c => c.id === card.id ? { ...c, isSelected: true } : c)` */
  function Select(cards: seq<MatchCard>, id: CardId): (r: seq<MatchCard>)
    ensures |r| == |cards|
    ensures forall i :: 0 <= i < |r| ==> Face(r[i]) == Face(cards[i]) && r[i].isMatched == cards[i].isMatched
    ensures forall i :: 0 <= i < |r| ==> (r[i].isSelected <==> cards[i].isSelected || cards[i].id == id)
  {
    seq(|cards|, i requires 0 <= i < |cards| =>
      if cards[i].id == id then cards[i].(isSelected := true) else cards[i])
  }

  /** Marks both cards of a matched vocabulary entry as matched and unselected. */
  function MarkMatched(cards: seq<MatchCard>, vocabId: int): (r: seq<MatchCard>)
    ensures |r| == |cards|
    ensures forall i :: 0 <= i < |r| ==> Face(r[i]) == Face(cards[i])
    ensures forall i :: 0 <= i < |r| ==> (r[i].isMatched <==> cards[i].isMatched || cards[i].vocabId == vocabId)
    ensures forall i :: 0 <= i < |r| ==> (r[i].isSelected <==> cards[i].isSelected && cards[i].vocabId != vocabId)
  {
    seq(|cards|, i requires 0 <= i < |cards| =>
      if cards[i].vocabId == vocabId then cards[i].(isMatched := true, isSelected := false) else cards[i])
  }

  /** The deferred step after a miss: every card is shown unselected. */
  function DeselectAll(cards: seq<MatchCard>): (r: seq<MatchCard>)
    ensures |r| == |cards|
    ensures forall i :: 0 <= i < |r| ==> Face(r[i]) == Face(cards[i]) && r[i].isMatched == cards[i].isMatched
    ensures forall i :: 0 <= i < |r| ==> !r[i].isSelected
  {
    seq(|cards|, i requires 0 <= i < |cards| => cards[i].(isSelected := false))
  }

  /** With distinct ids, selecting a card changes that card alone. */
  lemma SelectChangesOne(cards: seq<MatchCard>, k: nat)
    requires k < |cards|
    requires DistinctIds(cards)
    ensures Select(cards, cards[k].id)[k] == cards[k].(isSelected := true)
    ensures forall i :: 0 <= i < |cards| && i != k ==> Select(cards, cards[k].id)[i] == cards[i]
  {
    var r := Select(cards, cards[k].id);
    forall i | 0 <= i < |cards| && i != k
      ensures r[i] == cards[i]
    {
      assert cards[i].id != cards[k].id by {
        if i < k { } else { }
      }
    }
  }

  /** `${mins}:${secs.toString().padStart(2, '0')}` */
  function FormatTime(seconds: nat): (r: string)
    ensures |r| >= 4 && r[|r| - 3] == ':'
    ensures AllDigits(r[..|r| - 3]) && AllDigits(r[|r| - 2..])
    ensures Parse(r[..|r| - 3]) == seconds / 60
    ensures Parse(r[|r| - 2..]) == seconds % 60
    ensures |r| == 4 <==> seconds < 600
    ensures |r| > 4 ==> r[0] != '0'
  {
    var mins := Show(seconds / 60);
    var secs := PadTwo(Show(seconds % 60));
    ParseShow(seconds / 60);
    ParseShow(seconds % 60);
    ParseLeadingZero(Show(seconds % 60));
    var r := mins + ":" + secs;
    assert r[..|r| - 3] == mins;
    assert r[|r| - 2..] == secs;
    r
  }

  /** The accuracy shown on completion: matches over attempts, 100 with no attempts. */
  function Accuracy(matchCount: nat, wrongCount: nat): (a: int)
    ensures 0 <= a <= 100
    ensures wrongCount == 0 ==> a == 100
    ensures matchCount == 0 && wrongCount > 0 ==> a == 0
    ensures matchCount + wrongCount > 0 ==>
      var f := matchCount as real / (matchCount + wrongCount) as real;
      a as real - 0.5 <= f * 100.0 < a as real + 0.5
  {
    if matchCount + wrongCount > 0 then RoundedPercent(matchCount, matchCount + wrongCount) else 100
  }

  /** The game's start: the first min(6, n) words after one shuffle, and
      their deck after a second shuffle. */
  method Deal(practiceWords: seq<PracticeWord>, wordPicks: seq<nat>, cardPicks: seq<nat>)
    returns (words: seq<PracticeWord>, dealt: seq<MatchCard>)
    requires ValidPicks(wordPicks, |practiceWords|)
    requires ValidPicks(cardPicks, 2 * GameWordCount(|practiceWords|))
    ensures words == FisherYates(practiceWords, wordPicks)[..GameWordCount(|practiceWords|)]
    ensures |dealt| == 2 * |words|
    ensures dealt == FisherYates(Deck(words), cardPicks)
    ensures multiset(dealt) == multiset(Deck(words))
    ensures DistinctIds(dealt)
  {
    var shuffledWords := ShuffleArray(practiceWords, wordPicks);
    words := shuffledWords[..GameWordCount(|practiceWords|)];
    var deck := BuildDeck(words);
    var shuffledCards := ShuffleArray(deck, cardPicks);
    dealt := shuffledCards[..];
    DeckIds(words);
    PermutationKeepsIds(Deck(words), dealt);
  }

  class MatchingSession {
    /** The first min(6, n) practice words after a shuffle. */
    const gameWords: seq<PracticeWord>
    /** The deck as dealt: the pairs of the game words, shuffled. */
    const initialCards: seq<MatchCard>
    var cards: seq<MatchCard>
    var selectedCard: Option<MatchCard>
    var matchCount: nat
    var wrongCount: nat
    var sessionXP: int
    var isComplete: bool

    /** Clicks never change what a card is, only its two flags. */
    ghost predicate Valid()
      reads this
    {
      && |initialCards| == 2 * |gameWords|
      && DistinctIds(initialCards)
      && |cards| == |initialCards|
      && forall i :: 0 <= i < |cards| ==> Face(cards[i]) == Face(initialCards[i])
    }

    constructor (practiceWords: seq<PracticeWord>, wordPicks: seq<nat>, cardPicks: seq<nat>)
      requires ValidPicks(wordPicks, |practiceWords|)
      requires ValidPicks(cardPicks, 2 * GameWordCount(|practiceWords|))
      ensures Valid()
      ensures gameWords == FisherYates(practiceWords, wordPicks)[..GameWordCount(|practiceWords|)]
      ensures initialCards == FisherYates(Deck(gameWords), cardPicks) && cards == initialCards
      ensures multiset(initialCards) == multiset(Deck(gameWords))
      ensures selectedCard == None && matchCount == 0 && wrongCount == 0
      ensures sessionXP == 0 && !isComplete
    {
      var words, dealt := Deal(practiceWords, wordPicks, cardPicks);
      gameWords, initialCards, cards := words, dealt, dealt;
      selectedCard, matchCount, wrongCount, sessionXP, isComplete := None, 0, 0, 0, false;
    }

    /** handleCardClick on the card at position k; returns the XP awarded. */
    method ClickCard(k: nat) returns (xpEarned: int)
      requires Valid() && k < |cards|
      modifies this
      ensures Valid()
      // an already matched or selected card ignores the click
      ensures old(cards[k].isMatched || cards[k].isSelected) ==>
        && cards == old(cards) && selectedCard == old(selectedCard)
        && matchCount == old(matchCount) && wrongCount == old(wrongCount)
        && sessionXP == old(sessionXP) && isComplete == old(isComplete) && xpEarned == 0
      // the first click selects the card and remembers it
      ensures !old(cards[k].isMatched || cards[k].isSelected) && old(selectedCard).None? ==>
        && cards == Select(old(cards), old(cards[k].id)) && selectedCard == Some(old(cards[k]))
        && cards[k] == old(cards[k]).(isSelected := true)
        && (forall i :: 0 <= i < |cards| && i != k ==> cards[i] == old(cards[i]))
        && matchCount == old(matchCount) && wrongCount == old(wrongCount)
        && sessionXP == old(sessionXP) && isComplete == old(isComplete) && xpEarned == 0
      // a matching second click marks the pair, scores 15 and may finish the game
      ensures (&& !old(cards[k].isMatched || cards[k].isSelected) && old(selectedCard).Some?
               && IsMatch(old(selectedCard).value, old(cards[k]))) ==>
        && cards == MarkMatched(old(cards), old(cards[k].vocabId)) && selectedCard == None
        && matchCount == old(matchCount) + 1 && wrongCount == old(wrongCount)
        && xpEarned == 15 && sessionXP == old(sessionXP) + 15
        && isComplete == (old(isComplete) || old(matchCount) + 1 == |gameWords|)
      // a missed second click counts a miss and shows the card selected until the deferred step
      ensures (&& !old(cards[k].isMatched || cards[k].isSelected) && old(selectedCard).Some?
               && !IsMatch(old(selectedCard).value, old(cards[k]))) ==>
        && cards == Select(old(cards), old(cards[k].id)) && selectedCard == None
        && matchCount == old(matchCount) && wrongCount == old(wrongCount) + 1
        && sessionXP == old(sessionXP) && isComplete == old(isComplete) && xpEarned == 0
    {
      var card := cards[k];
      xpEarned := 0;
      if card.isMatched || card.isSelected {
        return;
      }
      if selectedCard.None? {
        SelectChangesOne(cards, k);
        selectedCard := Some(card);
        cards := Select(cards, card.id);
      } else {
        if IsMatch(selectedCard.value, card) {
          cards := MarkMatched(cards, card.vocabId);
          xpEarned := 15;
          sessionXP := sessionXP + xpEarned;
          if matchCount + 1 == |gameWords| {
            isComplete := true;
          }
          matchCount := matchCount + 1;
        } else {
          wrongCount := wrongCount + 1;
          cards := Select(cards, card.id);
        }
        selectedCard := None;
      }
    }

    /** The step the 500 ms timer runs after a miss: every card unselected. */
    method DeferredDeselect()
      requires Valid()
      modifies this
      ensures Valid()
      ensures cards == DeselectAll(old(cards))
      ensures selectedCard == old(selectedCard) && matchCount == old(matchCount)
      ensures wrongCount == old(wrongCount) && sessionXP == old(sessionXP)
      ensures isComplete == old(isComplete)
    {
      cards := DeselectAll(cards);
    }

    function SessionAccuracy(): (a: int)
      reads this
      ensures 0 <= a <= 100
      ensures wrongCount == 0 ==> a == 100
    {
      Accuracy(matchCount, wrongCount)
    }
  }
}
