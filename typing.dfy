/** Typing practice: the learner types the English meaning of a Latin word;
    the answer is normalised and compared with the stored meaning, and the
    result feeds the scheduler with quality 4 (correct) or 1 (incorrect). */
module Typing {
  import opened Js
  import opened Util
  import opened Srs
  import opened Database
  import opened Shuffle

  /** The characters the normaliser deletes: . , ; : ! ? ' " ( ) */
  predicate IsPunctuation(c: char) {
    c == '.' || c == ',' || c == ';' || c == ':' || c == '!' || c == '?'
    || c == '\'' || c == '"' || c == '(' || c == ')'
  }

  /** `.replace(/[.,;:!?'"()]/g, '')` */
  function RemovePunctuation(s: string): (t: string)
    ensures |t| <= |s|
    ensures forall i :: 0 <= i < |t| ==> !IsPunctuation(t[i]) && t[i] in s
    ensures (forall i :: 0 <= i < |s| ==> !IsPunctuation(s[i])) ==> t == s
  {
    if s == [] then []
    else if IsPunctuation(s[0]) then RemovePunctuation(s[1..])
    else [s[0]] + RemovePunctuation(s[1..])
  }

  /** Removing punctuation keeps everything else: the result is a subsequence
      of the input holding each other character as often as the input does. */
  lemma {:induction false} RemovePunctuationKeeps(s: string)
    ensures var t := RemovePunctuation(s);
      && IsSubsequence(t, s)
      && (forall c :: !IsPunctuation(c) ==> multiset(t)[c] == multiset(s)[c])
      && (forall c :: IsPunctuation(c) ==> multiset(t)[c] == 0)
    decreases |s|
  {
    if s != [] {
      RemovePunctuationKeeps(s[1..]);
      var rest := RemovePunctuation(s[1..]);
      assert s == [s[0]] + s[1..];
      if !IsPunctuation(s[0]) {
        assert ([s[0]] + rest)[1..] == rest;
      }
    }
  }

  /** No two adjacent spaces. */
  predicate NoDoubleSpace(s: string) {
    forall i, j :: 0 <= i < |s| && j == i + 1 && j < |s| ==> !(s[i] == ' ' && s[j] == ' ')
  }

  /** `.replace(/\s+/g, ' ')`: every run of whitespace becomes one space. */
  function CollapseWhitespace(s: string): (t: string)
    ensures |t| <= |s|
    ensures forall i :: 0 <= i < |t| ==> t[i] == ' ' || (t[i] in s && !IsWhitespace(t[i]))
    ensures NoDoubleSpace(t)
    ensures s == [] <==> t == []
    ensures s != [] ==> t[0] == (if IsWhitespace(s[0]) then ' ' else s[0])
    decreases |s|
  {
    if s == [] then []
    else if IsWhitespace(s[0]) then
      var rest := TrimStart(s);
      assert |rest| < |s| by {
        assert rest != [] ==> rest[0] == s[|s| - |rest|];
      }
      SliceMembers(s, |s| - |rest|, |s|);
      [' '] + CollapseWhitespace(rest)
    else
      [s[0]] + CollapseWhitespace(s[1..])
  }

  /** The first pass of an independent reading of `/\s+/g -> ' '`: every
      whitespace character becomes a space. */
  function Spaced(s: string): (t: string)
    ensures |t| == |s|
  {
    if s == [] then [] else [if IsWhitespace(s[0]) then ' ' else s[0]] + Spaced(s[1..])
  }

  /** The second pass: a space right after a space is dropped. */
  function Squeeze(s: string): (t: string)
    ensures |t| <= |s|
  {
    if |s| <= 1 then s
    else if s[0] == ' ' && s[1] == ' ' then Squeeze(s[1..])
    else [s[0]] + Squeeze(s[1..])
  }

  /** A whitespace run at the front turns into one space before the rest. */
  lemma {:induction false} SqueezeRun(s: string)
    requires s != [] && IsWhitespace(s[0])
    ensures Squeeze(Spaced(s)) == [' '] + Squeeze(Spaced(TrimStart(s)))
    decreases |s|
  {
    var x := Spaced(s[1..]);
    assert Spaced(s) == [' '] + x;
    if |s| >= 2 && IsWhitespace(s[1]) {
      SqueezeRun(s[1..]);
      assert x[0] == ' ' by { assert x == [' '] + Spaced(s[2..]); }
      assert (Spaced(s))[1..] == x;
    } else {
      TrimStartKeeps(s[1..]);
      if x != [] {
        assert x[0] == s[1] by { assert x == [s[1]] + Spaced(s[2..]); }
      }
      assert ([' '] + x)[1..] == x;
    }
  }

  /** Collapsing is the two-pass reading: map whitespace to spaces, then drop
      every space that follows a space. So each whitespace run becomes one
      space in the place where it was. */
  lemma {:induction false} CollapseIsSqueeze(s: string)
    ensures CollapseWhitespace(s) == Squeeze(Spaced(s))
    decreases |s|
  {
    if s != [] {
      if IsWhitespace(s[0]) {
        var rest := TrimStart(s);
        assert |rest| < |s| by {
          assert rest != [] ==> rest[0] == s[|s| - |rest|];
        }
        CollapseIsSqueeze(rest);
        SqueezeRun(s);
      } else {
        CollapseIsSqueeze(s[1..]);
        var x := Spaced(s[1..]);
        assert Spaced(s) == [s[0]] + x;
        assert ([s[0]] + x)[1..] == x;
      }
    }
  }

  /** Collapsing keeps every non-whitespace character, in order. */
  lemma {:induction false} CollapseKeepsText(s: string)
    ensures NonBlank(CollapseWhitespace(s)) == NonBlank(s)
    decreases |s|
  {
    if s != [] {
      if IsWhitespace(s[0]) {
        var rest := TrimStart(s);
        assert |rest| < |s| by {
          assert rest != [] ==> rest[0] == s[|s| - |rest|];
        }
        CollapseKeepsText(rest);
        NonBlankTrimStart(s);
        assert ([' '] + CollapseWhitespace(rest))[1..] == CollapseWhitespace(rest);
      } else {
        CollapseKeepsText(s[1..]);
        assert ([s[0]] + CollapseWhitespace(s[1..]))[1..] == CollapseWhitespace(s[1..]);
      }
    }
  }

  /** The answer normaliser: lower-case, trim, drop punctuation, collapse whitespace. */
  function NormalizeAnswer(text: string): (r: string)
    ensures |r| <= |text|
  {
    CollapseWhitespace(RemovePunctuation(Trim(ToLower(text))))
  }

  /** Dropping punctuation and dropping whitespace can be done in either order. */
  lemma {:induction false} NonBlankRemovePunctuation(s: string)
    ensures NonBlank(RemovePunctuation(s)) == RemovePunctuation(NonBlank(s))
    decreases |s|
  {
    if s != [] {
      NonBlankRemovePunctuation(s[1..]);
      var rest := RemovePunctuation(s[1..]);
      if !IsPunctuation(s[0]) {
        assert ([s[0]] + rest)[1..] == rest;
      }
      if !IsWhitespace(s[0]) {
        assert ([s[0]] + NonBlank(s[1..]))[1..] == NonBlank(s[1..]);
      }
    }
  }

  /** The normaliser keeps the text: apart from whitespace, a normalised answer
      is exactly the lower-cased input without its punctuation, in order. */
  lemma NormalizeKeepsText(text: string)
    ensures NonBlank(NormalizeAnswer(text)) == RemovePunctuation(NonBlank(ToLower(text)))
  {
    var lower := ToLower(text);
    NonBlankTrim(lower);
    NonBlankRemovePunctuation(Trim(lower));
    CollapseKeepsText(RemovePunctuation(Trim(lower)));
  }

  /** A normalised answer has no punctuation, no upper case, and its only
      whitespace is single spaces. */
  lemma NormalizedForm(text: string)
    ensures var r := NormalizeAnswer(text);
      && (forall i :: 0 <= i < |r| ==> !IsPunctuation(r[i]) && !IsUpper(r[i]))
      && (forall i :: 0 <= i < |r| ==> IsWhitespace(r[i]) ==> r[i] == ' ')
      && NoDoubleSpace(r)
  {
    var trimmed := Trim(ToLower(text));
    assert forall i :: 0 <= i < |trimmed| ==> !IsUpper(trimmed[i]);
    var bare := RemovePunctuation(trimmed);
    assert forall c :: c in bare ==> !IsUpper(c) && !IsPunctuation(c) by {
      UnpunctuatedLower(trimmed);
    }
    CollapsedForm(bare);
  }

  /** Removing punctuation from lower-case text leaves lower-case text without punctuation. */
  lemma UnpunctuatedLower(s: string)
    requires forall i :: 0 <= i < |s| ==> !IsUpper(s[i])
    ensures forall c :: c in RemovePunctuation(s) ==> !IsUpper(c) && !IsPunctuation(c)
  {
    var t := RemovePunctuation(s);
    forall c | c in t ensures !IsUpper(c) && !IsPunctuation(c) {
      var i :| 0 <= i < |t| && t[i] == c;
      assert c in s;
    }
  }

  /** Collapsing keeps the letters it is given and leaves single spaces as the only whitespace. */
  lemma CollapsedForm(s: string)
    requires forall c :: c in s ==> !IsUpper(c) && !IsPunctuation(c)
    ensures var r := CollapseWhitespace(s);
      && (forall i :: 0 <= i < |r| ==> !IsPunctuation(r[i]) && !IsUpper(r[i]))
      && (forall i :: 0 <= i < |r| ==> IsWhitespace(r[i]) ==> r[i] == ' ')
      && NoDoubleSpace(r)
  {
  }

  /** Lower-casing is idempotent on ASCII. */
  lemma ToLowerIdempotent(s: string)
    ensures ToLower(ToLower(s)) == ToLower(s)
  {
  }

  /** Answers are compared without regard to case. */
  lemma CaseInsensitive(text: string)
    ensures NormalizeAnswer(ToLower(text)) == NormalizeAnswer(text)
  {
    ToLowerIdempotent(text);
  }

  /** Trimming comes before punctuation removal, so a space before trailing
      punctuation survives: "cat ." normalises to "cat ", which itself
      normalises to "cat". The normaliser is therefore not idempotent. */
  lemma TrailingSpaceSurvives()
    ensures NormalizeAnswer("cat .") == "cat "
    ensures NormalizeAnswer(NormalizeAnswer("cat .")) == "cat"
  {
    CatDotNormalizes();
    CatSpaceNormalizes();
  }

  lemma CatDotNormalizes()
    ensures NormalizeAnswer("cat .") == "cat "
  {
    CatDotTrimmed();
    CatDotBare();
    CatSpaceCollapsed();
  }

  lemma CatSpaceNormalizes()
    ensures NormalizeAnswer("cat ") == "cat"
  {
    CatSpaceTrimmed();
    CatBare();
    CatCollapsed();
  }

  lemma CatDotTrimmed()
    ensures Trim(ToLower("cat .")) == "cat ."
  {
    var s := "cat .";
    assert ToLower(s) == s by { LowerUnchanged(s); }
    assert s[0] == 'c' && s[4] == '.';
    TrimKeeps(s);
  }

  lemma CatSpaceTrimmed()
    ensures Trim(ToLower("cat ")) == "cat"
  {
    var s := "cat ";
    assert ToLower(s) == s by { LowerUnchanged(s); }
    assert Trim(s) == s[..3] by {
      assert s[0] == 'c' && s[2] == 't' && s[3] == ' ';
      TrimDropsOne(s);
    }
    assert s[..3] == "cat";
  }

  /** A trailing full stop after punctuation-free text is deleted. */
  lemma {:induction false} DropsTrailingStop(w: string)
    requires forall i :: 0 <= i < |w| ==> !IsPunctuation(w[i])
    ensures RemovePunctuation(w + ".") == w
  {
    if w == [] {
      assert RemovePunctuation(".") == RemovePunctuation(""[..]) by { assert "."[1..] == ""; }
    } else {
      assert (w + ".")[1..] == w[1..] + ".";
      DropsTrailingStop(w[1..]);
    }
  }

  lemma CatDotBare()
    ensures RemovePunctuation("cat .") == "cat "
  {
    DropsTrailingStop("cat ");
    assert "cat " + "." == "cat .";
  }

  lemma CatBare()
    ensures RemovePunctuation("cat") == "cat"
  {
    assert "cat"[1..] == "at" && "at"[1..] == "t" && "t"[1..] == [];
  }

  lemma CatSpaceCollapsed()
    ensures CollapseWhitespace("cat ") == "cat "
  {
    CollapseWordSpace("cat");
    assert "cat" + " " == "cat ";
  }

  lemma CatCollapsed()
    ensures CollapseWhitespace("cat") == "cat"
  {
    CollapseWord("cat");
  }

  /** A string without whitespace is left as it is. */
  lemma {:induction false} CollapseWord(w: string)
    requires forall i :: 0 <= i < |w| ==> !IsWhitespace(w[i])
    ensures CollapseWhitespace(w) == w
  {
    if w != [] {
      CollapseWord(w[1..]);
    }
  }

  /** A single trailing space after a word stays. */
  lemma {:induction false} CollapseWordSpace(w: string)
    requires forall i :: 0 <= i < |w| ==> !IsWhitespace(w[i])
    ensures CollapseWhitespace(w + " ") == w + " "
  {
    if w == [] {
      assert TrimStart(" ") == [] by { assert " "[1..] == []; }
      assert w + " " == " ";
    } else {
      assert (w + " ")[1..] == w[1..] + " ";
      CollapseWordSpace(w[1..]);
    }
  }

  /** The acceptance rule: an exact match of the normalised strings, or a
      normalised input that occurs in the normalised answer and is at least
      70% of its length. */
  function IsCorrect(userInput: string, answer: string): (ok: bool)
    ensures var input, expected := NormalizeAnswer(userInput), NormalizeAnswer(answer);
      ok <==> Includes(expected, input) && 10 * |input| >= 7 * |expected|
    ensures NormalizeAnswer(userInput) == NormalizeAnswer(answer) ==> ok
    ensures ok ==> |NormalizeAnswer(userInput)| <= |NormalizeAnswer(answer)|
  {
    var input := NormalizeAnswer(userInput);
    var expected := NormalizeAnswer(answer);
    input == expected || (Includes(expected, input) && 10 * |input| >= 7 * |expected|)
  }

  /** Correct answers feed quality 4, incorrect ones quality 1. */
  function AnswerQuality(correct: bool): (q: Quality)
    ensures q >= 3 <==> correct
    ensures correct ==> q == QualityFromRating(Good)
    ensures !correct ==> q == QualityFromRating(Again)
  {
    if correct then 4 else 1
  }

  /** What one graded answer produces: the verdict, the XP award and the
      progress update for the word's row. */
  datatype Outcome = Outcome(correct: bool, xp: int, write: ProgressWrite)

  /** The scheduling step of checkAnswer for one word, given the verdict. */
  function Grade(word: PracticeWord, correct: bool, now: int): (o: Outcome)
    ensures o.correct == correct
    ensures o.write.UpdateRow? && o.write.rowId == word.progress.id
    ensures var result := CalculateNextReview(AnswerQuality(correct), ParamsOf(word.progress), now);
      && o.write.fields == FieldsOf(result, now)
      && o.xp == CalculateXP(AnswerQuality(correct), result.status)
    ensures correct ==> o.write.fields.repetitions == word.progress.repetitions + 1
    ensures correct ==> o.xp == 12 || o.xp == 22
    ensures !correct ==>
      && o.xp == 0 && o.write.fields.interval == 0
      && o.write.fields.repetitions == 0 && o.write.fields.status == Learning
  {
    var quality := AnswerQuality(correct);
    var result := CalculateNextReview(quality, ParamsOf(word.progress), now);
    Outcome(correct, CalculateXP(quality, result.status), UpdateRow(word.progress.id, FieldsOf(result, now)))
  }

  class TypingSession {
    /** The practice words, shuffled once when the session starts. */
    const words: seq<PracticeWord>
    var currentIndex: nat
    var sessionXP: int
    var correctCount: nat
    var userInput: string
    var isAnswered: bool
    var isCorrect: bool
    var isComplete: bool

    /** The completion screen replaces the input once isComplete is set, and
        a word is counted correct at most once, when it is answered. */
    ghost predicate Valid()
      reads this
    {
      && |words| > 0 && currentIndex < |words|
      && correctCount <= currentIndex + (if isAnswered || isComplete then 1 else 0)
    }

    /** The page starts a typing session only with at least one word. */
    constructor (practiceWords: seq<PracticeWord>, picks: seq<nat>)
      requires |practiceWords| > 0 && ValidPicks(picks, |practiceWords|)
      ensures Valid()
      ensures words == FisherYates(practiceWords, picks)
      ensures multiset(words) == multiset(practiceWords)
      ensures currentIndex == 0 && sessionXP == 0 && correctCount == 0
      ensures userInput == [] && !isAnswered && !isCorrect && !isComplete
    {
      var shuffled := ShuffleArray(practiceWords, picks);
      words := shuffled[..];
      currentIndex, sessionXP, correctCount := 0, 0, 0;
      userInput, isAnswered, isCorrect, isComplete := [], false, false, false;
    }

    method SetInput(text: string)
      requires Valid()
      modifies this
      ensures Valid()
      ensures userInput == text
      ensures currentIndex == old(currentIndex) && sessionXP == old(sessionXP)
      ensures correctCount == old(correctCount) && isAnswered == old(isAnswered)
      ensures isCorrect == old(isCorrect) && isComplete == old(isComplete)
    {
      userInput := text;
    }

    /** checkAnswer: grades the typed input once per word, schedules the word,
        and returns the progress update and the XP to add. */
    method CheckAnswer(now: int) returns (write: Option<ProgressWrite>, xp: int)
      requires Valid() && !isComplete
      modifies this
      ensures Valid()
      ensures old(isAnswered) ==>
        && write == None && xp == 0
        && isAnswered && isCorrect == old(isCorrect)
        && correctCount == old(correctCount) && sessionXP == old(sessionXP)
      ensures !old(isAnswered) ==>
        var o := Grade(words[currentIndex], isCorrect, now);
        && isAnswered && isCorrect == IsCorrect(userInput, words[currentIndex].vocabulary.english)
        && correctCount == old(correctCount) + (if o.correct then 1 else 0)
        && xp == o.xp && sessionXP == old(sessionXP) + xp
        && write == Some(o.write)
      ensures currentIndex == old(currentIndex) && userInput == old(userInput)
      ensures isComplete == old(isComplete)
    {
      if isAnswered {
        return None, 0;
      }
      var correct := IsCorrect(userInput, words[currentIndex].vocabulary.english);
      var o := Grade(words[currentIndex], correct, now);
      Record(o);
      xp, write := o.xp, Some(o.write);
    }

    /** Stores one graded answer. */
    method Record(o: Outcome)
      modifies this
      ensures isAnswered && isCorrect == o.correct
      ensures correctCount == old(correctCount) + (if o.correct then 1 else 0)
      ensures sessionXP == old(sessionXP) + o.xp
      ensures currentIndex == old(currentIndex) && userInput == old(userInput)
      ensures isComplete == old(isComplete)
    {
      isCorrect := o.correct;
      isAnswered := true;
      if o.correct {
        correctCount := correctCount + 1;
      }
      sessionXP := sessionXP + o.xp;
    }

    /** handleNext: clears the answer, then moves on or finishes at the last word. */
    method HandleNext()
      requires Valid() && !isComplete
      modifies this
      ensures Valid()
      ensures userInput == [] && !isAnswered && !isCorrect
      ensures old(currentIndex) < |words| - 1 ==>
        currentIndex == old(currentIndex) + 1 && isComplete == old(isComplete)
      ensures old(currentIndex) == |words| - 1 ==>
        currentIndex == old(currentIndex) && isComplete
      ensures correctCount == old(correctCount) && sessionXP == old(sessionXP)
    {
      userInput, isAnswered, isCorrect := [], false, false;
      if currentIndex < |words| - 1 {
        currentIndex := currentIndex + 1;
      } else {
        isComplete := true;
      }
    }

    /** The accuracy shown on completion, as a rounded percentage. */
    function Accuracy(): (a: int)
      reads this
      requires Valid()
      ensures 0 <= a <= 100
      ensures correctCount == |words| ==> a == 100
      ensures var f := correctCount as real / |words| as real; a as real - 0.5 <= f * 100.0 < a as real + 0.5
      ensures correctCount == 0 ==> a == 0
    {
      RoundedPercent(correctCount, |words|)
    }
  }
}
