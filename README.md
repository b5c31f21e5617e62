# latin-learner: scheduler and practice sessions in Dafny

This project models the study logic of latin-learner, a web app for learning Latin vocabulary.

- **Scheduler** (`srs.dfy`). The SM-2-style spaced-repetition scheduler in `src/lib/srs.ts`. After each answer it takes a quality score (0–5) and the word's ease factor, interval and repetition count. It returns the next state, the due time and a status label (`learning`, `review`, `mastered`). It also holds the rating-to-quality table, the XP award and the interval caption.
- **AI providers** (`providers.dfy`). The constant provider table in `src/lib/ai/providers.ts`, the provider and model lookups, and the API-key sanity check.
- **Four practice sessions.** Each session component is a `class` whose fields are the component's state and whose methods are its event handlers:
  - typing (`typing.dfy`): type the English meaning; the answer is normalised and accepted on an exact or 70% substring match;
  - matching (`matching.dfy`): match Latin and English cards of up to six words;
  - fanfold (`fanfold.dfy`): unfold a card stage by stage, then self-rate;
  - learn (`learn.dfy`): study the new words of a list, or every word in practice-all mode, inserting or updating progress rows.

Shared pieces:
- `shuffle.dfy`: the Fisher–Yates shuffle the sessions copy verbatim. It is an in-place loop over an `array`, proved against a function of the random picks, and the result is a permutation.
- `js.dfy`: the JavaScript built-ins the sessions rely on (`Math.round`, `trim`, `toLowerCase`, `startsWith`, `includes`), over ASCII.
- `numbertext.dfy`: decimal text and `padStart` for the matching timer.
- `database.dfy`: the progress rows and the writes handed to the database.
- `util.dfy`: an optional value, subsequences of a list, and the rounded percentage the completion screens show.

How values and side effects are represented:
- The ease factor is an exact `real`.
- The clock is an input `now` in milliseconds.
- `Math.random` becomes a sequence of picks, each in the range the source's `Math.floor(Math.random() * (i + 1))` can produce.
- A database write becomes a returned `ProgressWrite` value: an update by row id, or an insert.

## Model

| member | source | states |
|---|---|---|
| Srs.CalculateNextReview | src/lib/srs.ts:33-90 | ease ≥ 1.3 on every path; quality < 3 resets to interval 0, repetitions 0, `learning`, due in one minute, ease max(1.3, ef − 0.2); a pass sets ease max(1.3, ef + delta), interval 1, 6, then round(interval·ease), repetitions + 1, due `interval` days later; status follows the new interval |
| Srs.EaseDelta | src/lib/srs.ts:51-54 | the pass adjustment is +0.1 for quality 5, 0 for 4, −0.14 for 3 |
| Srs.StatusForInterval | src/lib/srs.ts:67-77 | below 7 days `learning`, 7–20 `review`, 21 or more `mastered`, never `new` |
| Srs.QualityFromRating | src/lib/srs.ts:93-104 | the quality is at least 3 exactly when the rating is not "again" |
| Srs.QualityFromRatingOrdered | src/lib/srs.ts:93-104 | again < hard < good < easy, again = 1, easy = 5 |
| Srs.CalculateXP | src/lib/srs.ts:124-129 | XP lies in 0..25; it is 25 exactly for quality 5 on a mastered word; a pass earns at least 10 |
| Srs.XPMonotoneInQuality | src/lib/srs.ts:124-129 | for a fixed status, higher quality never earns less XP |
| Srs.FailedAnswerEarnsNothing | src/lib/srs.ts:40-48 | a failed answer, scored with the status the scheduler gives it, earns 0 XP |
| Srs.GetIntervalText | src/lib/srs.ts:107-121 | under a day: round(days·1440) minutes when below 60, otherwise round(minutes / 60) hours, 1–24; "1 day" exactly at one day; other days strictly between 1 and 7; from 7 to 30 days "1 week" exactly when round(days / 7) is 1, else that many weeks (2–4); from 30 days "1 month" exactly when round(days / 30) is 1, else that many months |
| Srs.DefaultReachable | src/lib/srs.ts:35 | the default prior state {2.5, 0, 0} satisfies the scheduler invariant |
| Srs.NextReviewKeepsReachable | src/lib/srs.ts:33-90 | every answer keeps the invariant: ease ≥ 1.3; repetitions 0 ⇒ interval 0, 1 ⇒ 1, ≥ 2 ⇒ at least 6 |
| Srs.SuccessGrowsInterval | src/lib/srs.ts:57-65 | past the first pass, each pass grows the interval by at least 30% (rounded) |
| Srs.PassesGrow | src/lib/srs.ts:57-65 | any run of n passes (qualities 3–5 in any mix) from a reachable state stays reachable, adds n repetitions and, from the second pass on, reaches at least the interval 6, 8, 10, 13, 17, … |
| Srs.SevenPassesMaster | src/lib/srs.ts:57-77 | from any reachable state, after six passes of whatever passing qualities, a seventh pass is labelled mastered |
| Srs.FirstGoodAnswer | src/lib/srs.ts:35-65 | a first "good" on a fresh word keeps ease 2.5, interval 1, is due a day later and earns 12 XP |
| Srs.EasyLadder | src/lib/srs.ts:51-77 | four "easy" answers on a fresh word give intervals 1, 6, 17, 49 and end mastered with ease 2.9 |
| Providers.GetProviderConfig | src/lib/ai/providers.ts:23-132 | the provider's entry has that provider's id, and its default model is among its models |
| Providers.FindModel | src/lib/ai/providers.ts:134-136 | none exactly when no model has the id; otherwise the first model with it |
| Providers.GetModelConfig | src/lib/ai/providers.ts:134-136 | the first model of the provider's table with the id, or none exactly when no model has it |
| Providers.DefaultModelFound | src/lib/ai/providers.ts:23-136 | every provider's default model is found by the model lookup |
| Providers.ValidateApiKey | src/lib/ai/providers.ts:138-155 | blank keys are refused; OpenAI accepts exactly "sk-" keys, Anthropic exactly "sk-ant-" keys, Google "AI" keys or non-blank keys longer than 30 |
| Providers.PrefixMatchesTable | src/lib/ai/providers.ts:138-149 | for OpenAI and Anthropic the check is the table's `apiKeyPrefix` test |
| Providers.AnthropicKeysPassOpenAICheck | src/lib/ai/providers.ts:144-149 | every key the Anthropic check accepts passes the OpenAI check too |
| Providers.LeadingSpaceRefused | src/lib/ai/providers.ts:139-145 | the prefix test runs on the untrimmed key: " sk-x" is non-blank and refused |
| Shuffle.SwapPermutes | src/components/typing-session.tsx:33 | one swap permutes the list |
| Shuffle.StepsPermute | src/components/typing-session.tsx:31-34 | every prefix of the swap steps permutes the list, whatever the picks |
| Shuffle.FisherYates | src/components/typing-session.tsx:29-36 | the shuffle has the input's length and multiset |
| Shuffle.ShuffleInPlace | src/components/typing-session.tsx:31-34 | the loop from n − 1 down to 1 leaves the array as the step function says |
| Shuffle.ShuffleArray | src/components/typing-session.tsx:29-36 | a fresh copy is shuffled (the input is untouched), giving a permutation of the input |
| Typing.RemovePunctuation | src/components/typing-session.tsx:42 | the result has none of `. , ; : ! ? ' " ( )`, keeps only characters of the input, and leaves punctuation-free text as it is |
| Typing.RemovePunctuationKeeps | src/components/typing-session.tsx:42 | the result is a subsequence of the input holding every other character exactly as often as the input does, and no punctuation |
| Typing.CollapseWhitespace | src/components/typing-session.tsx:43 | never longer than the input; the result's whitespace is single spaces, never two in a row; other characters come from the input; empty exactly when the input is; a leading run becomes one space |
| Typing.CollapseIsSqueeze | src/components/typing-session.tsx:43 | collapsing equals the two-pass reading of the replace: every whitespace character becomes a space, then each space right after a space is dropped, so each whitespace run becomes one space in its own place |
| Typing.SqueezeRun | src/components/typing-session.tsx:43 | under the two-pass reading, a leading whitespace run gives one space followed by the rest |
| Typing.CollapseKeepsText | src/components/typing-session.tsx:43 | collapsing keeps every non-whitespace character of the input, in order |
| Typing.NormalizeAnswer | src/components/typing-session.tsx:38-44 | the normalised answer is never longer than the input |
| Typing.NonBlankRemovePunctuation | src/components/typing-session.tsx:41-43 | dropping punctuation and dropping whitespace commute |
| Typing.NormalizeKeepsText | src/components/typing-session.tsx:38-44 | apart from whitespace, a normalised answer is exactly the lower-cased input without its punctuation, in order |
| Typing.NormalizedForm | src/components/typing-session.tsx:38-44 | a normalised answer has no punctuation, no upper-case letter, no whitespace but spaces, and no double space |
| Typing.CaseInsensitive | src/components/typing-session.tsx:40 | normalising ignores case |
| Typing.TrailingSpaceSurvives | src/components/typing-session.tsx:41-43 | "cat ." normalises to "cat ", which normalises to "cat", so the normaliser is not idempotent |
| Typing.IsCorrect | src/components/typing-session.tsx:76-77 | accepted exactly when the normalised input occurs in the normalised answer and is at least 70% of its length; an exact match is always accepted; an accepted input is never longer than the answer |
| Typing.AnswerQuality | src/components/typing-session.tsx:82 | correct feeds quality 4 (as "good"), incorrect quality 1 (as "again") |
| Typing.Grade | src/components/typing-session.tsx:82-107 | the row's update and the XP come from the scheduler run on the stored state; a correct answer adds a repetition and earns 12 or 22; an incorrect one earns 0 and resets to `learning` |
| Typing.TypingSession.constructor | src/components/typing-session.tsx:50-58 | the words are the shuffle of the practice words; counters zero, flags cleared |
| Typing.TypingSession.SetInput | src/components/typing-session.tsx:229 | typing replaces the input and changes nothing else |
| Typing.TypingSession.CheckAnswer | src/components/typing-session.tsx:69-111 | only while the session runs; at most one correct answer is counted per word shown; once answered, nothing changes; otherwise `isCorrect` is the acceptance rule, `correctCount` rises only when correct, and XP and the row update are those of `Grade` |
| Typing.TypingSession.HandleNext | src/components/typing-session.tsx:113-123 | only while the session runs; clears input and flags, then advances or completes at the last word, keeping the correct count within the words shown |
| Typing.TypingSession.Accuracy | src/components/typing-session.tsx:136 | the rounded percentage of correct answers: within half of the exact percentage, always 0..100, 100 when all are correct, 0 when none are |
| Matching.GameWordCount | src/components/matching-session.tsx:48 | at most 6 game words, and all words when there are fewer |
| Matching.Pair | src/components/matching-session.tsx:56-72 | a word gives a Latin and an English card with its vocabulary id |
| Matching.DeckShape | src/components/matching-session.tsx:53-73 | card 2i is word i's Latin card and 2i + 1 its English card; every card starts unmatched and unselected |
| Matching.IsMatch | src/components/matching-session.tsx:109 | a match needs the same vocabulary id and different sides, in either click order, so a card never matches itself |
| Matching.DeckMatches | src/components/matching-session.tsx:53-73 | when the game words are distinct vocabulary entries, two deck cards match exactly when they are the two cards of one word |
| Matching.DeckIds | src/components/matching-session.tsx:58-66 | every card's id is its side and word position; ids are distinct; each word's two cards match |
| Matching.BuildDeck | src/components/matching-session.tsx:53-73 | the push loop builds exactly the deck |
| Matching.PermutationKeepsIds | src/components/matching-session.tsx:75 | shuffling the deck keeps its ids distinct |
| Matching.Deal | src/components/matching-session.tsx:47-76 | the game words are the first min(6, n) shuffled words; the cards are a shuffle of their deck, with distinct ids |
| Matching.Select | src/components/matching-session.tsx:104-106 | only the selected flag changes, and it is set exactly on the card with the id |
| Matching.SelectChangesOne | src/components/matching-session.tsx:101-106 | with distinct ids, selecting changes the clicked card alone |
| Matching.MarkMatched | src/components/matching-session.tsx:111-115 | every card of the vocabulary id becomes matched and unselected, the rest stay |
| Matching.DeselectAll | src/components/matching-session.tsx:137-139 | every card is unselected, nothing else changes |
| Matching.MatchingSession.constructor | src/components/matching-session.tsx:47-83 | the session starts with the dealt cards, no selection, zero counters |
| Matching.MatchingSession.ClickCard | src/components/matching-session.tsx:98-144 | a matched or selected card ignores the click; a first click selects that card alone; a matching second click marks the pair, scores 15 and completes when the count reaches the number of game words; a miss counts one wrong and selects the card; a second click clears the selection |
| Matching.MatchingSession.DeferredDeselect | src/components/matching-session.tsx:137-139 | the timer step unselects every card and changes nothing else |
| Matching.FormatTime | src/components/matching-session.tsx:146-150 | minutes, a colon, two-digit seconds; reading the parts back gives seconds / 60 and seconds % 60; the minutes have no leading zero, and are one digit exactly below 600 seconds |
| Matching.Accuracy | src/components/matching-session.tsx:153-155 | matches over attempts, rounded: within 0..100, 100 with no wrong click, 0 with only wrong clicks |
| Matching.MatchingSession.SessionAccuracy | src/components/matching-session.tsx:153-155 | the session's accuracy lies in 0..100 and is 100 without wrong clicks |
| NumberText.Show | src/components/matching-session.tsx:149 | decimal digits, no leading zero, one digit exactly below 10 |
| NumberText.ParseShow | src/components/matching-session.tsx:149 | reading back the decimal text gives the number |
| NumberText.PadTwo | src/components/matching-session.tsx:149 | `padStart(2, '0')`: short text gets leading zeros up to two characters |
| Fanfold.CountFor | src/components/fanfold-session.tsx:67-69 | a helper table has rows for the word exactly when the word's id occurs in it |
| Fanfold.MaxStage | src/components/fanfold-session.tsx:72-78 | the limit is 4 exactly with examples, else 3 with mnemonics, else 2 with derivatives, else 1 |
| Fanfold.MaxStageMonotone | src/components/fanfold-session.tsx:72-78 | more help of any kind never lowers the limit |
| Fanfold.Rate | src/components/fanfold-session.tsx:89-114 | a rating counts as correct exactly when it is not "again"; XP and the row update come from the scheduler |
| Fanfold.FanfoldSession.constructor | src/components/fanfold-session.tsx:55-61 | the words are the shuffle of the practice words, stage 0, counters zero |
| Fanfold.FanfoldSession.HandleReveal | src/components/fanfold-session.tsx:80-84 | one more stage while below the limit, never past it |
| Fanfold.FanfoldSession.HandleRating | src/components/fanfold-session.tsx:86-126 | `correctCount` rises exactly on a correct rating, `sessionXP` by the scheduler's XP; the card folds to stage 0 and the session advances or completes |
| Fanfold.FanfoldSession.Accuracy | src/components/fanfold-session.tsx:129 | round(100 · correct / total), within half of the exact percentage: always 0..100, 100 when all are correct, 0 when none are |
| Learn.LookupProgress | src/components/learn-session.tsx:45 | none exactly when no row has the id; otherwise the last row with it, as `new Map` keeps it |
| Learn.NewWords | src/components/learn-session.tsx:50-53 | the order-preserving subsequence of exactly the words with no row or a `new` row |
| Learn.WordsToStudy | src/components/learn-session.tsx:48-53 | the whole list in practice-all mode, the new words otherwise |
| Util.SubsequenceMembers | src/components/learn-session.tsx:50 | a filtered list holds only words of the list |
| Learn.ShowPracticeAllOption | src/components/learn-session.tsx:122 | shown exactly outside practice-all mode with nothing to study |
| Learn.PracticeAllOffered | src/components/learn-session.tsx:122 | the option is shown exactly when, outside practice-all mode, no word of the list needs study |
| Learn.PriorParams | src/components/learn-session.tsx:77-81 | the stored state for a word with a row, the default state otherwise |
| Learn.Study | src/components/learn-session.tsx:74-105 | exactly one write: an update by the existing row's id, or an insert for the user and word; fields and XP come from the scheduler; a first pass on an unseen word gives interval 1 and one repetition |
| Learn.LearnSession.constructor | src/components/learn-session.tsx:48-62 | the session starts complete exactly when there is nothing to study |
| Learn.LearnSession.Flip | src/components/learn-session.tsx:228 | flipping changes only the flipped flag |
| Learn.LearnSession.HandleRating | src/components/learn-session.tsx:71-119 | the write and XP are those of `Study`; `wordsLearned` rises by one, the card unflips, the session advances or completes |
| Database.FieldsOf | src/components/typing-session.tsx:99-106 | the stored columns are the scheduler's status, ease, interval, repetitions and due time, reviewed at `now` |
| Util.RoundedPercent | src/components/fanfold-session.tsx:129 | Math.round of the percentage: within half of it, 0..100 for a part of the whole, 100 for the whole, 0 for none |
| Js.Round | src/lib/srs.ts:62 | Math.round: the nearest integer, halves upward |
| Js.Trim | src/components/typing-session.tsx:41 | empty exactly for blank text; a contiguous block of the input with only whitespace before and after it |
| Js.TrimEnds | src/components/typing-session.tsx:41 | trimmed text neither starts nor ends with whitespace |
| Js.NonBlankTrim | src/components/typing-session.tsx:41 | trimming keeps every non-whitespace character, in order |
| Js.ToLower | src/components/typing-session.tsx:40 | same length; each ASCII capital is lowered, every other character kept |
| Js.StartsWith | src/lib/ai/providers.ts:145-148 | true exactly when the prefix fits and agrees with the string character by character |
| Js.Includes | src/components/typing-session.tsx:77 | a string includes only blocks no longer than itself, and of its own length only itself |
| Js.IncludesAt | src/components/typing-session.tsx:77 | `includes` holds exactly when the block occurs at some index |

## Left out

- Database, network and XP RPC calls, and all `await` plumbing. The model returns the update or insert a handler would send. The `increment_xp` amount is the returned XP.
- Clock and calendar:
  - `Date.now()` and `new Date()` become the parameter `now`.
  - A day is a fixed 86 400 000 ms. Local-time `setDate` across daylight-saving changes is left out.
  - The handlers read the clock a second time for `last_review`; the model uses the same `now` for both reads.
- Randomness: `Math.random` becomes picks, one per swap step, each within the range its `Math.floor` can produce.
- IEEE-754 doubles:
  - The ease factor and the percentages are exact reals, so rounding at exact .5 boundaries may differ from doubles.
  - The `0.7` threshold is stated as `10·|input| ≥ 7·|answer|`, which agrees with the double comparison for every answer length below 10^12. The double product `L·0.7` is within about L·10^-16 of 7L/10, on either side. When 7L/10 is not an integer it is at least 0.1 from every integer, so an integer length compares the same way with both. When 7L/10 is an integer, it is itself a double and the exact product with the double `0.7` (slightly below 7/10) is below it, so the rounded product is at most 7L/10 and above 7L/10 − 1; again an integer length compares the same way with both.
- Unicode: case mapping and whitespace cover ASCII only (space, tab, line feed, vertical tab, form feed, carriage return).
- Srs.GetIntervalText: the caption is a structured value (unit and count), not the formatted string. A non-integer day count is not formatted.
- Timers:
  - The 500 ms deselect is the explicit step `DeferredDeselect`.
  - The elapsed-time counter is left out, apart from `FormatTime`.
  - A first click made before a pending deselect fires loses its highlight when the step runs. This is not stated as a lemma.
- Matching.MatchingSession.ClickCard: the bound `matchCount ≤ number of game words` is not proved as an invariant. Completion is stated per click.
- Rendering gates:
  - Fanfold shows the rating buttons only from stage 1 (src/components/fanfold-session.tsx:307). `HandleRating` does not require it, so its precondition is weaker.
  - Fanfold.FanfoldSession.HandleRating, Learn.LearnSession.HandleRating, Typing.TypingSession.CheckAnswer and Typing.TypingSession.HandleNext require the session not to be complete, because the completion view (src/components/fanfold-session.tsx:128, src/components/learn-session.tsx:121, src/components/typing-session.tsx:135) replaces the controls.
- Overlapping ratings: the model runs each handler to completion before the next event. In the source, fanfold and learn `handleRating` (src/components/fanfold-session.tsx:86-126, src/components/learn-session.tsx:71-119) count the rating, then await the progress write and the XP call, and only then advance. The rating buttons stay live during the awaits. A second click in that window rates the same word again: the counters and XP rise twice, the row is written twice, `increment_xp` runs twice, and the index advances twice. The model does not capture this interleaving.
- The handlers' `!currentWord` / `!currentProgress` guards (src/components/fanfold-session.tsx:87, src/components/learn-session.tsx:72) cannot fire in the model: the typing and fanfold pages open a session only with at least one word (src/app/(app)/modes/typing/page.tsx:28, src/app/(app)/modes/fanfold/page.tsx:28), the constructors require it, and handlers do not overlap. In the source, the overlapping second rating above can move the index past the last word, and the guard then ends the handler early.
- Providers.ValidateApiKey models the prefix check defined at src/lib/ai/providers.ts:138-155. The app itself never calls that function: the settings form (src/components/settings-form.tsx:97) only refuses blank keys and then asks a server route, which checks the key with the provider over the network. That route and the network check are not part of this model.
- Learn.NewWords: the vocabulary list is taken to hold each vocabulary id once, as the table's primary key guarantees. With repeated ids, the subsequence and membership contract would not single out one result.
- The learn-mode write also carries `user_id` and `vocab_id` on an update. The model keeps them only on an insert, where they identify the new row.
- The matching and fanfold copies of `shuffleArray` are identical to the typing copy and are modelled once, in `Shuffle`.
- Card ids `latin-${index}` / `english-${index}` are modelled as a side and an index. That pairing is one-to-one, like the strings.
- `LEARNING_STEPS` beyond its first entry is never read and is kept only as a constant.
- Left out entirely:
  - the cloze, multiple-choice and review sessions;
  - the flashcard button captions;
  - server routes, authentication pages and all rendering.
