/** The database rows the sessions read, and the writes they hand to the
    persistence layer (the writes themselves are not modelled, only what is
    written). Times are milliseconds. */
module Database {
  import opened Srs

  datatype Vocabulary = Vocabulary(id: int, list: int, latin: string, english: string)

  /** A `user_vocab_progress` row, restricted to the columns the core reads. */
  datatype Progress = Progress(
    id: string, userId: string, vocabId: int,
    easeFactor: real, interval: int, repetitions: int, status: Status)

  /** A progress row joined with its vocabulary entry. */
  datatype PracticeWord = PracticeWord(progress: Progress, vocabulary: Vocabulary)

  /** The scheduling columns written after an answer. */
  datatype Scheduled = Scheduled(
    status: Status, easeFactor: real, interval: int, repetitions: int,
    nextReview: int, lastReview: int)

  datatype ProgressWrite =
    | UpdateRow(rowId: string, fields: Scheduled)
    | InsertRow(userId: string, vocabId: int, fields: Scheduled)

  function ParamsOf(p: Progress): Params {
    Params(p.easeFactor, p.interval, p.repetitions)
  }

  /** The columns stored for a scheduler result, reviewed at `now`. */
  function FieldsOf(r: ReviewResult, now: int): (f: Scheduled)
    ensures f.status == r.status && f.interval == r.interval && f.lastReview == now
    ensures f.easeFactor == r.easeFactor && f.repetitions == r.repetitions
    ensures f.nextReview == r.nextReview
  {
    Scheduled(r.status, r.easeFactor, r.interval, r.repetitions, r.nextReview, now)
  }
}
