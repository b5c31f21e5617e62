/** Fanfold practice: a card unfolds stage by stage (Latin word, meaning,
    derivatives, mnemonic, example sentence, as far as the word has them),
    and the learner then rates their recall on the four scheduler buttons. */
module Fanfold {
  import opened Srs
  import opened Util
  import opened Database
  import opened Shuffle

  /** How many rows of a helper table (derivatives, mnemonics or example
      sentences, each given by its vocab_id column) belong to the word. */
  function CountFor(vocabIds: seq<int>, vocabId: int): (n: nat)
    ensures n <= |vocabIds|
    ensures n > 0 <==> vocabId in vocabIds
  {
    if vocabIds == [] then 0
    else (if vocabIds[0] == vocabId then 1 else 0) + CountFor(vocabIds[1..], vocabId)
  }

  /** The deepest stage a card can unfold to: 1 shows the meaning, 2 the
      derivatives, 3 the mnemonic, 4 the example; a later kind of help
      raises the limit whether or not the earlier kinds exist. */
  function MaxStage(derivatives: nat, mnemonics: nat, examples: nat): (stage: nat)
    ensures 1 <= stage <= 4
    ensures stage == 4 <==> examples > 0
    ensures stage == 3 <==> examples == 0 && mnemonics > 0
    ensures stage == 2 <==> examples == 0 && mnemonics == 0 && derivatives > 0
    ensures stage == 1 <==> examples == 0 && mnemonics == 0 && derivatives == 0
  {
    var stage := 1;
    var stage := if derivatives > 0 then 2 else stage;
    var stage := if mnemonics > 0 then 3 else stage;
    var stage := if examples > 0 then 4 else stage;
    stage
  }

  /** More help of any kind never lowers the limit. */
  lemma MaxStageMonotone(d1: nat, m1: nat, e1: nat, d2: nat, m2: nat, e2: nat)
    requires d1 <= d2 && m1 <= m2 && e1 <= e2
    ensures MaxStage(d1, m1, e1) <= MaxStage(d2, m2, e2)
  {
  }

  /** The result of one rating: whether it counts as correct, the XP it
      earns and the update of the word's progress row. */
  datatype Rated = Rated(correct: bool, xp: int, write: ProgressWrite)

  /** The scheduling step of handleRating for one word. */
  function Rate(word: PracticeWord, rating: Rating, now: int): (r: Rated)
    ensures r.correct <==> rating != Again
    ensures r.write.UpdateRow? && r.write.rowId == word.progress.id && r.write.fields.lastReview == now
    ensures var result := CalculateNextReview(QualityFromRating(rating), ParamsOf(word.progress), now);
      && r.xp == CalculateXP(QualityFromRating(rating), result.status)
      && r.write.fields == FieldsOf(result, now)
    ensures rating == Again ==>
      && r.xp == 0 && r.write.fields.interval == 0 && r.write.fields.repetitions == 0
    ensures rating != Again ==>
      && r.xp >= 10 && r.write.fields.repetitions == word.progress.repetitions + 1
  {
    var quality := QualityFromRating(rating);
    var result := CalculateNextReview(quality, ParamsOf(word.progress), now);
    Rated(quality >= 3, CalculateXP(quality, result.status), UpdateRow(word.progress.id, FieldsOf(result, now)))
  }

  class FanfoldSession {
    /** The practice words, shuffled once when the session starts. */
    const words: seq<PracticeWord>
    /** The vocab_id of every derivative, mnemonic and example-sentence row. */
    const derivatives: seq<int>
    const mnemonics: seq<int>
    const examples: seq<int>
    var currentIndex: nat
    var sessionXP: int
    var correctCount: nat
    var revealStage: nat
    var isComplete: bool

    /** The current card is a real word and never unfolds past its limit. */
    ghost predicate Valid()
      reads this
    {
      && |words| > 0 && currentIndex < |words|
      && revealStage <= CurrentMaxStage()
      && correctCount <= currentIndex + (if isComplete then 1 else 0)
    }

    /** maxStage for the word on screen. */
    function CurrentMaxStage(): (stage: nat)
      reads this
      requires currentIndex < |words|
      ensures 1 <= stage <= 4
    {
      var id := words[currentIndex].vocabulary.id;
      MaxStage(CountFor(derivatives, id), CountFor(mnemonics, id), CountFor(examples, id))
    }

    /** The page opens a fanfold session only with at least one word. */
    constructor (practiceWords: seq<PracticeWord>, picks: seq<nat>,
                 derivativeIds: seq<int>, mnemonicIds: seq<int>, exampleIds: seq<int>)
      requires |practiceWords| > 0 && ValidPicks(picks, |practiceWords|)
      ensures Valid()
      ensures words == FisherYates(practiceWords, picks)
      ensures derivatives == derivativeIds && mnemonics == mnemonicIds && examples == exampleIds
      ensures currentIndex == 0 && sessionXP == 0 && correctCount == 0
      ensures revealStage == 0 && !isComplete
    {
      var shuffled := ShuffleArray(practiceWords, picks);
      words := shuffled[..];
      derivatives, mnemonics, examples := derivativeIds, mnemonicIds, exampleIds;
      currentIndex, sessionXP, correctCount, revealStage, isComplete := 0, 0, 0, 0, false;
    }

    /** handleReveal: one more stage, up to the word's limit. */
    method HandleReveal()
      requires Valid()
      modifies this
      ensures Valid()
      ensures old(revealStage) < CurrentMaxStage() ==> revealStage == old(revealStage) + 1
      ensures old(revealStage) == CurrentMaxStage() ==> revealStage == old(revealStage)
      ensures currentIndex == old(currentIndex) && sessionXP == old(sessionXP)
      ensures correctCount == old(correctCount) && isComplete == old(isComplete)
    {
      var maxStage := CurrentMaxStage();
      if revealStage < maxStage {
        revealStage := if revealStage + 1 < maxStage then revealStage + 1 else maxStage;
      }
    }

    /** handleRating: schedules the word on screen, scores the rating, folds
        the card and moves on, or finishes at the last word. */
    method HandleRating(rating: Rating, now: int) returns (write: ProgressWrite, xp: int)
      requires Valid()
      requires !isComplete
      modifies this
      ensures Valid()
      ensures var r := Rate(words[old(currentIndex)], rating, now);
        && write == r.write && xp == r.xp
        && correctCount == old(correctCount) + (if r.correct then 1 else 0)
        && sessionXP == old(sessionXP) + xp
      ensures revealStage == 0
      ensures old(currentIndex) < |words| - 1 ==> currentIndex == old(currentIndex) + 1 && !isComplete
      ensures old(currentIndex) == |words| - 1 ==> currentIndex == old(currentIndex) && isComplete
    {
      var r := Rate(words[currentIndex], rating, now);
      if r.correct {
        correctCount := correctCount + 1;
      }
      xp := r.xp;
      sessionXP := sessionXP + xp;
      write := r.write;
      revealStage := 0;
      if currentIndex < |words| - 1 {
        currentIndex := currentIndex + 1;
      } else {
        isComplete := true;
      }
    }

    /** The accuracy shown on completion. */
    function Accuracy(): (a: int)
      reads this
      requires Valid()
      ensures 0 <= a <= 100
      ensures correctCount == |words| ==> a == 100
      ensures var f := correctCount as real / |words| as real; a as real - 0.5 <= f * 100.0 < a as real + 0.5
      ensures correctCount == 0 ==> a == 0
    {
      RoundedPercent(correctCount, |words|)
    }
  }
}
