/** Learning a vocabulary list: the words not yet started (or, in
    practice-all mode, every word of the list) are shown one flashcard at a
    time; each rating schedules the word and inserts or updates its
    progress row. */
module Learn {
  import opened Js
  import opened Util
  import opened Srs
  import opened Database

  /** `new Map(rows.map(p => [p.vocab_id, p])).get(vocabId)`: a later row
      overwrites an earlier one with the same vocab_id, so the last one wins. */
  function LookupProgress(rows: seq<Progress>, vocabId: int): (r: Option<Progress>)
    ensures r.None? <==> forall i :: 0 <= i < |rows| ==> rows[i].vocabId != vocabId
    ensures r.Some? ==> exists i :: IsLastFor(rows, vocabId, i) && rows[i] == r.value
    decreases |rows|
  {
    if rows == [] then None
    else
      var later := LookupProgress(rows[1..], vocabId);
      if later.Some? then
        var i :| IsLastFor(rows[1..], vocabId, i) && rows[1..][i] == later.value;
        assert IsLastFor(rows, vocabId, i + 1);
        later
      else if rows[0].vocabId == vocabId then
        assert IsLastFor(rows, vocabId, 0);
        Some(rows[0])
      else
        None
  }

  /** Row i is the last row for the vocabulary entry. */
  predicate IsLastFor(rows: seq<Progress>, vocabId: int, i: int) {
    0 <= i < |rows| && rows[i].vocabId == vocabId
    && forall j :: i < j < |rows| ==> rows[j].vocabId != vocabId
  }

  /** A word is studied in learn mode when it has no progress row or its row is still new. */
  predicate NeedsStudy(rows: seq<Progress>, word: Vocabulary) {
    var p := LookupProgress(rows, word.id);
    p.None? || p.value.status == New
  }

  /** `vocabulary.filter(...)` of learn mode. */
  function NewWords(vocabulary: seq<Vocabulary>, rows: seq<Progress>): (r: seq<Vocabulary>)
    ensures IsSubsequence(r, vocabulary)
    ensures forall i :: 0 <= i < |r| ==> NeedsStudy(rows, r[i])
    ensures forall v :: v in vocabulary ==> (v in r <==> NeedsStudy(rows, v))
    decreases |vocabulary|
  {
    if vocabulary == [] then []
    else
      var rest := NewWords(vocabulary[1..], rows);
      assert forall v :: v in vocabulary ==> v == vocabulary[0] || v in vocabulary[1..];
      if NeedsStudy(rows, vocabulary[0]) then
        assert ([vocabulary[0]] + rest)[1..] == rest;
        [vocabulary[0]] + rest
      else
        rest
  }

  /** wordsToStudy: the whole list in practice-all mode, the new words otherwise. */
  function WordsToStudy(vocabulary: seq<Vocabulary>, rows: seq<Progress>, practiceAll: bool): (r: seq<Vocabulary>)
    ensures practiceAll ==> r == vocabulary
    ensures !practiceAll ==> r == NewWords(vocabulary, rows)
  {
    if practiceAll then vocabulary else NewWords(vocabulary, rows)
  }

  /** The completion screen offers "practice all" only in learn mode with nothing to learn. */
  function ShowPracticeAllOption(practiceAll: bool, wordsToStudy: seq<Vocabulary>): (show: bool)
    ensures show <==> !practiceAll && |wordsToStudy| == 0
  {
    !practiceAll && |wordsToStudy| == 0
  }

  /** The option is offered exactly when learn mode finds every word of the
      list already started. */
  lemma PracticeAllOffered(vocabulary: seq<Vocabulary>, rows: seq<Progress>, practiceAll: bool)
    ensures ShowPracticeAllOption(practiceAll, WordsToStudy(vocabulary, rows, practiceAll))
      <==> !practiceAll && forall i :: 0 <= i < |vocabulary| ==> !NeedsStudy(rows, vocabulary[i])
  {
    if !practiceAll {
      var r := NewWords(vocabulary, rows);
      if r != [] {
        SubsequenceMembers(r, vocabulary);
        assert r[0] in vocabulary;
      }
      if exists i :: 0 <= i < |vocabulary| && NeedsStudy(rows, vocabulary[i]) {
        var i :| 0 <= i < |vocabulary| && NeedsStudy(rows, vocabulary[i]);
        assert vocabulary[i] in r;
      }
    }
  }

  /** The prior state handed to the scheduler: the stored one, or the
      scheduler's default for a word without a row. */
  function PriorParams(existing: Option<Progress>): (p: Params)
    ensures existing.None? ==> p == DefaultParams
    ensures existing.Some? ==> p == ParamsOf(existing.value)
  {
    if existing.Some? then ParamsOf(existing.value) else DefaultParams
  }

  /** What one rating of a learn-session word produces. */
  datatype Learned = Learned(xp: int, write: ProgressWrite)

  /** The scheduling and persistence choice of handleRating for one word. */
  function Study(userId: string, rows: seq<Progress>, word: Vocabulary, rating: Rating, now: int): (l: Learned)
    // an existing row is updated by its id, otherwise one is inserted
    ensures l.write.UpdateRow? <==> LookupProgress(rows, word.id).Some?
    ensures l.write.UpdateRow? ==> l.write.rowId == LookupProgress(rows, word.id).value.id
    ensures l.write.InsertRow? ==> l.write.userId == userId && l.write.vocabId == word.id
    ensures var result := CalculateNextReview(QualityFromRating(rating), PriorParams(LookupProgress(rows, word.id)), now);
      && l.write.fields == FieldsOf(result, now)
      && l.xp == CalculateXP(QualityFromRating(rating), result.status)
    // a first success on an unseen word schedules it one day ahead
    ensures LookupProgress(rows, word.id).None? && rating != Again ==>
      && l.write.fields.interval == 1 && l.write.fields.repetitions == 1
      && l.write.fields.easeFactor >= InitialEaseFactor - 0.14
    ensures rating == Again ==> l.xp == 0 && l.write.fields.interval == 0
  {
    var quality := QualityFromRating(rating);
    var existing := LookupProgress(rows, word.id);
    var result := CalculateNextReview(quality, PriorParams(existing), now);
    var fields := FieldsOf(result, now);
    Learned(CalculateXP(quality, result.status),
            if existing.Some? then UpdateRow(existing.value.id, fields) else InsertRow(userId, word.id, fields))
  }

  class LearnSession {
    const vocabulary: seq<Vocabulary>
    const progress: seq<Progress>
    const userId: string
    const practiceAll: bool
    /** wordsToStudy, fixed for the session. */
    const words: seq<Vocabulary>
    var currentIndex: nat
    var sessionXP: int
    var wordsLearned: nat
    var isComplete: bool
    var isFlipped: bool

    /** Every rating so far studied one word, in list order. */
    ghost predicate Valid()
      reads this
    {
      && words == WordsToStudy(vocabulary, progress, practiceAll)
      && (|words| == 0 ==> isComplete && currentIndex == 0 && wordsLearned == 0)
      && (|words| > 0 ==> currentIndex < |words|)
      && wordsLearned == currentIndex + (if isComplete && |words| > 0 then 1 else 0)
    }

    constructor (vocabularyList: seq<Vocabulary>, rows: seq<Progress>, user: string, all: bool)
      ensures Valid()
      ensures vocabulary == vocabularyList && progress == rows && userId == user && practiceAll == all
      ensures isComplete <==> |words| == 0
      ensures currentIndex == 0 && sessionXP == 0 && wordsLearned == 0 && !isFlipped
    {
      vocabulary, progress, userId, practiceAll := vocabularyList, rows, user, all;
      words := WordsToStudy(vocabularyList, rows, all);
      currentIndex, sessionXP, wordsLearned := 0, 0, 0;
      isComplete := |WordsToStudy(vocabularyList, rows, all)| == 0;
      isFlipped := false;
    }

    /** The flashcard's onFlip. */
    method Flip()
      requires Valid()
      modifies this
      ensures Valid()
      ensures isFlipped
      ensures currentIndex == old(currentIndex) && sessionXP == old(sessionXP)
      ensures wordsLearned == old(wordsLearned) && isComplete == old(isComplete)
    {
      isFlipped := true;
    }

    /** handleRating for the word on screen; the completion screen replaces
        the flashcard, so a rating comes only while the session runs. */
    method HandleRating(rating: Rating, now: int) returns (write: ProgressWrite, xp: int)
      requires Valid() && !isComplete
      modifies this
      ensures Valid()
      ensures var l := Study(userId, progress, words[old(currentIndex)], rating, now);
        write == l.write && xp == l.xp
      ensures sessionXP == old(sessionXP) + xp && wordsLearned == old(wordsLearned) + 1
      ensures !isFlipped
      ensures old(currentIndex) < |words| - 1 ==> currentIndex == old(currentIndex) + 1 && !isComplete
      ensures old(currentIndex) == |words| - 1 ==> currentIndex == old(currentIndex) && isComplete
    {
      var l := Study(userId, progress, words[currentIndex], rating, now);
      xp := l.xp;
      sessionXP := sessionXP + xp;
      write := l.write;
      wordsLearned := wordsLearned + 1;
      isFlipped := false;
      if currentIndex < |words| - 1 {
        currentIndex := currentIndex + 1;
      } else {
        isComplete := true;
      }
    }
  }
}
