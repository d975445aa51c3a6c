/** The question/response record (src/interfaces/interview.interface.ts). */
module Interview {
  import opened Filters
  import opened Scores

  /** An optional field of a record: absent, or present with a value. */
  datatype Option<+T> = None | Some(value: T)

  /**
   * One question of the catalogue, or one answered question of a response
   * file: the same record serves both pipelines.
   */
  datatype InterviewQuestion = InterviewQuestion(
    question: string,
    level: Level,
    technology: Technology,
    knowledgeScore: Score,
    practiceScore: Score,
    note: Option<string>,
    hint: Option<string>)
}
