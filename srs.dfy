/** The SM-2-style spaced-repetition scheduler: after each answer, a quality
    score and the word's prior scheduling state give the next state, the due
    time and a status label; a separate function awards XP. The ease factor
    is an exact rational (`real`); the clock is the parameter `now`, in
    milliseconds, and a day is a fixed 86 400 000 ms. */
module Srs {
  import opened Js

  /** The progress label of a word (`SRSStatus`, also `VocabStatus` in the database). */
  datatype Status = New | Learning | Review | Mastered

  /** The four self-rating buttons. */
  datatype Rating = Again | Hard | Good | Easy

  /** 0-2 failed recall, 3 correct with difficulty, 4 with hesitation, 5 perfect. */
  type Quality = q: int | 0 <= q <= 5

  const MinEaseFactor: real := 1.3
  const InitialEaseFactor: real := 2.5
  /** Learning steps in minutes; only the first is ever read. */
  const LearningSteps: seq<nat> := [1, 10, 60, 1440]
  const MillisPerMinute: int := 60 * 1000
  const MillisPerDay: int := 24 * 60 * MillisPerMinute

  /** The scheduling state kept per user and word. */
  datatype Params = Params(easeFactor: real, interval: int, repetitions: int)

  /** What the source uses when no prior state is given. */
  const DefaultParams: Params := Params(InitialEaseFactor, 0, 0)

  datatype ReviewResult = ReviewResult(
    easeFactor: real, interval: int, repetitions: int, nextReview: int, status: Status)

  function AsParams(r: ReviewResult): Params {
    Params(r.easeFactor, r.interval, r.repetitions)
  }

  function Max(a: real, b: real): (m: real)
    ensures m >= a && m >= b && (m == a || m == b)
  {
    if a >= b then a else b
  }

  /** The SM-2 ease adjustment for a passing quality, before the 1.3 floor. */
  function EaseDelta(quality: Quality): (d: real)
    ensures quality == 5 ==> d == 0.1
    ensures quality == 4 ==> d == 0.0
    ensures quality == 3 ==> d == -0.14
    ensures d <= 0.1
  {
    0.1 - (5 - quality) as real * (0.08 + (5 - quality) as real * 0.02)
  }

  /** The status label is read off the interval alone. */
  function StatusForInterval(interval: int): (s: Status)
    ensures s != New
    ensures s == Learning <==> interval < 7
    ensures s == Review <==> 7 <= interval < 21
    ensures s == Mastered <==> 21 <= interval
  {
    if interval < 1 then Learning
    else if interval < 7 then Learning
    else if interval < 21 then Review
    else Mastered
  }

  function CalculateNextReview(quality: Quality, params: Params, now: int): (r: ReviewResult)
    ensures r.easeFactor >= MinEaseFactor
    ensures r.status == StatusForInterval(r.interval) && r.status != New
    // a failure resets the schedule, whatever the prior state
    ensures quality < 3 ==>
      && r.easeFactor == Max(MinEaseFactor, params.easeFactor - 0.2)
      && r.interval == 0 && r.repetitions == 0 && r.status == Learning
      && r.nextReview == now + LearningSteps[0] * MillisPerMinute
    // a success adjusts the ease and grows the interval 1, 6, then geometrically
    ensures quality >= 3 ==>
      && r.easeFactor == Max(MinEaseFactor, params.easeFactor + EaseDelta(quality))
      && r.repetitions == params.repetitions + 1
      && r.interval == (if params.repetitions == 0 then 1
                        else if params.repetitions == 1 then 6
                        else Round(params.interval as real * r.easeFactor))
      && r.nextReview == now + r.interval * MillisPerDay
  {
    if quality < 3 then
      ReviewResult(Max(MinEaseFactor, params.easeFactor - 0.2), 0, 0,
                   now + LearningSteps[0] * MillisPerMinute, Learning)
    else
      var easeFactor := Max(MinEaseFactor, params.easeFactor + EaseDelta(quality));
      var interval :=
        if params.repetitions == 0 then 1
        else if params.repetitions == 1 then 6
        else Round(params.interval as real * easeFactor);
      ReviewResult(easeFactor, interval, params.repetitions + 1,
                   now + interval * MillisPerDay, StatusForInterval(interval))
  }

  function QualityFromRating(rating: Rating): (q: Quality)
    ensures q >= 3 <==> rating != Again
    ensures q != 0 && q != 2
  {
    match rating
    case Again => 1
    case Hard => 3
    case Good => 4
    case Easy => 5
  }

  /** Distinct buttons give distinct qualities, in the order of the buttons. */
  lemma QualityFromRatingOrdered()
    ensures QualityFromRating(Again) < QualityFromRating(Hard) < QualityFromRating(Good) < QualityFromRating(Easy)
    ensures QualityFromRating(Again) == 1 && QualityFromRating(Easy) == 5
  {
  }

  /** XP: 10 for a pass, +5 for quality 5 or +2 for quality 4, +10 when mastered. */
  function CalculateXP(quality: Quality, status: Status): (xp: int)
    ensures 0 <= xp <= 25
    ensures xp == 25 <==> quality == 5 && status == Mastered
    ensures quality < 3 ==> xp == (if status == Mastered then 10 else 0)
    ensures quality >= 3 ==> xp >= 10
  {
    var baseXP := if quality >= 3 then 10 else 0;
    var bonusXP := if quality == 5 then 5 else if quality == 4 then 2 else 0;
    var masteryBonus := if status == Mastered then 10 else 0;
    baseXP + bonusXP + masteryBonus
  }

  lemma XPMonotoneInQuality(q1: Quality, q2: Quality, status: Status)
    requires q1 <= q2
    ensures CalculateXP(q1, status) <= CalculateXP(q2, status)
  {
  }

  /** A failed answer never earns XP, since the scheduler labels it learning. */
  lemma FailedAnswerEarnsNothing(quality: Quality, params: Params, now: int)
    requires quality < 3
    ensures CalculateXP(quality, CalculateNextReview(quality, params, now).status) == 0
  {
  }

  /** Text shown for a day count: a unit and a count, with the singular forms apart. */
  datatype IntervalText =
    | Minutes(minutes: int) | Hours(hours: int)
    | OneDay | Days(days: real)
    | OneWeek | Weeks(weeks: int)
    | OneMonth | Months(months: int)

  function GetIntervalText(days: real): (t: IntervalText)
    ensures days < 1.0 <==> t.Minutes? || t.Hours?
    ensures t.Minutes? ==> t.minutes < 60 && Round(days * 1440.0) == t.minutes
    ensures t.Hours? ==> 1 <= t.hours <= 24 && Round(days * 1440.0) >= 60
    ensures t.Hours? ==> t.hours == Round(Round(days * 1440.0) as real / 60.0)
    ensures t == OneDay <==> days == 1.0
    ensures t.Days? <==> 1.0 < days < 7.0
    ensures t.Days? ==> t.days == days
    ensures t == OneWeek || t.Weeks? <==> 7.0 <= days < 30.0
    ensures t == OneWeek <==> 7.0 <= days < 30.0 && Round(days / 7.0) == 1
    ensures t.Weeks? ==> 2 <= t.weeks <= 4 && t.weeks == Round(days / 7.0)
    ensures t == OneMonth || t.Months? <==> 30.0 <= days
    ensures t == OneMonth <==> 30.0 <= days && Round(days / 30.0) == 1
    ensures t.Months? ==> t.months >= 2 && t.months == Round(days / 30.0)
  {
    if days < 1.0 then
      var minutes := Round(days * 24.0 * 60.0);
      if minutes < 60 then Minutes(minutes) else Hours(Round(minutes as real / 60.0))
    else if days == 1.0 then OneDay
    else if days < 7.0 then Days(days)
    else if days < 30.0 then
      var weeks := Round(days / 7.0);
      if weeks == 1 then OneWeek else Weeks(weeks)
    else
      var months := Round(days / 30.0);
      if months == 1 then OneMonth else Months(months)
  }

  /** An invariant every state the scheduler reaches from the default state
      satisfies (some states satisfying it are not reachable): the ease is
      floored, a fresh or failed word has interval 0, one success gives 1 day,
      and two or more consecutive successes give at least 6 days. */
  ghost predicate Reachable(p: Params) {
    && p.easeFactor >= MinEaseFactor
    && p.repetitions >= 0
    && (p.repetitions == 0 ==> p.interval == 0)
    && (p.repetitions == 1 ==> p.interval == 1)
    && (p.repetitions >= 2 ==> p.interval >= 6)
  }

  lemma DefaultReachable()
    ensures Reachable(DefaultParams)
  {
  }

  lemma ProductAtLeast(a: real, b: real, a0: real, b0: real)
    requires 0.0 <= a0 <= a && 0.0 <= b0 <= b
    ensures a0 * b0 <= a * b
  {
    assert a0 * b0 <= a * b0;
    assert a * b0 <= a * b;
  }

  /** Every answer, whatever its quality, keeps the scheduling state reachable. */
  lemma {:induction false} NextReviewKeepsReachable(quality: Quality, p: Params, now: int)
    requires Reachable(p)
    ensures Reachable(AsParams(CalculateNextReview(quality, p, now)))
  {
    var r := CalculateNextReview(quality, p, now);
    if quality >= 3 && p.repetitions >= 2 {
      ProductAtLeast(p.interval as real, r.easeFactor, 6.0, 1.3);
      RoundMonotone(7.8, p.interval as real * r.easeFactor);
      assert Round(7.8) == 8;
    }
  }

  /** Past the second success the interval grows by at least 30%, rounded. */
  lemma {:induction false} SuccessGrowsInterval(quality: Quality, p: Params, now: int, lower: int)
    requires Reachable(p) && quality >= 3 && p.repetitions >= 1
    requires 0 <= lower <= p.interval
    ensures CalculateNextReview(quality, p, now).interval >= (if p.repetitions == 1 then 6 else Round(lower as real * 1.3))
    ensures CalculateNextReview(quality, p, now).repetitions >= 2
  {
    var r := CalculateNextReview(quality, p, now);
    if p.repetitions >= 2 {
      ProductAtLeast(p.interval as real, r.easeFactor, lower as real, 1.3);
      RoundMonotone(lower as real * 1.3, p.interval as real * r.easeFactor);
    }
  }

  /** The state after answering with each quality of `qs` in turn. */
  function Answers(qs: seq<Quality>, p: Params, now: int): Params
    decreases |qs|
  {
    if qs == [] then p
    else AsParams(CalculateNextReview(qs[|qs| - 1], Answers(qs[..|qs| - 1], p, now), now))
  }

  /** A lower bound on the interval after n >= 2 consecutive passes:
      6, 8, 10, 13, 17, ... days, each the previous one times 1.3, rounded. */
  function PassBound(n: nat): (b: int)
    requires n >= 2
    ensures b >= 6
    decreases n
  {
    if n == 2 then 6
    else
      var prev := PassBound(n - 1);
      RoundMonotone(7.8, prev as real * 1.3);
      assert Round(7.8) == 8;
      Round(prev as real * 1.3)
  }

  /** Passes keep the state reachable, each adds a repetition, and from the
      second pass on the interval is at least PassBound. */
  lemma {:induction false} PassesGrow(qs: seq<Quality>, p: Params, now: int)
    requires Reachable(p)
    requires forall i :: 0 <= i < |qs| ==> qs[i] >= 3
    ensures var r := Answers(qs, p, now);
      && Reachable(r) && r.repetitions == p.repetitions + |qs|
      && (|qs| >= 2 ==> r.interval >= PassBound(|qs|))
    decreases |qs|
  {
    if qs != [] {
      var n := |qs|;
      var init := qs[..n - 1];
      var q := qs[n - 1];
      PassesGrow(init, p, now);
      var prev := Answers(init, p, now);
      NextReviewKeepsReachable(q, prev, now);
      if n == 2 {
        if prev.repetitions >= 2 {
          SuccessGrowsInterval(q, prev, now, 6);
          assert Round(6.0 * 1.3) == 8;
        } else {
          SuccessGrowsInterval(q, prev, now, 0);
        }
      } else if n > 2 {
        SuccessGrowsInterval(q, prev, now, PassBound(n - 1));
      }
    }
  }

  /** Repeated passing answers reach the mastered label: from any reachable
      state, the seventh consecutive pass is labelled mastered, whatever mix
      of "hard", "good" and "easy" the seven answers are (intervals of at
      least 1, 6, 8, 10, 13, 17, 22 days). */
  lemma SevenPassesMaster(qs: seq<Quality>, q: Quality, p: Params, now: int)
    requires Reachable(p) && |qs| == 6 && q >= 3
    requires forall i :: 0 <= i < |qs| ==> qs[i] >= 3
    ensures CalculateNextReview(q, Answers(qs, p, now), now).status == Mastered
  {
    PassesGrow(qs, p, now);
    var prev := Answers(qs, p, now);
    assert PassBound(6) == 17 by {
      assert PassBound(3) == 8 by { assert Round(6.0 * 1.3) == 8; }
      assert PassBound(4) == 10 by { assert Round(8.0 * 1.3) == 10; }
      assert PassBound(5) == 13 by { assert Round(10.0 * 1.3) == 13; }
      assert Round(13.0 * 1.3) == 17;
    }
    SuccessGrowsInterval(q, prev, now, 17);
    assert Round(17.0 * 1.3) == 22;
  }

  /** A first "good" answer on a fresh word: ease unchanged, due in one day, 12 XP. */
  lemma FirstGoodAnswer(now: int)
    ensures CalculateNextReview(4, DefaultParams, now)
         == ReviewResult(2.5, 1, 1, now + MillisPerDay, Learning)
    ensures CalculateXP(4, Learning) == 12
  {
  }

  /** Four "easy" answers on a fresh word: 1, 6, 17, then 49 days and mastered. */
  lemma EasyLadder(now: int)
    ensures var r1 := CalculateNextReview(5, DefaultParams, now);
            && r1.interval == 1 && r1.status == Learning
            && var r2 := CalculateNextReview(5, AsParams(r1), now);
            && r2.interval == 6 && r2.status == Learning
            && var r3 := CalculateNextReview(5, AsParams(r2), now);
            && r3.interval == 17 && r3.status == Review
            && var r4 := CalculateNextReview(5, AsParams(r3), now);
            && r4.interval == 49 && r4.status == Mastered && r4.easeFactor == 2.9
  {
    var r1 := CalculateNextReview(5, DefaultParams, now);
    assert r1.easeFactor == 2.6;
    var r2 := CalculateNextReview(5, AsParams(r1), now);
    assert r2.easeFactor == 2.7;
    var r3 := CalculateNextReview(5, AsParams(r2), now);
    assert r3.easeFactor == 2.8;
    assert Round(6.0 * 2.8) == 17;
    var r4 := CalculateNextReview(5, AsParams(r3), now);
    assert Round(17.0 * 2.9) == 49;
  }
}
