/**
 * The records kept in the `interviews` and `feedback` collections. Timestamps,
 * which the application stores as ISO-8601 strings, are integer milliseconds
 * since the epoch here; a field the application may leave out is an `Option`.
 */
module Types {
  import opened Wrappers

  /** An interview record as stored (without its document id). */
  datatype Interview = Interview(
    userId: string,
    role: string,
    level: string,
    interviewType: string,      // the `type` field
    techstack: seq<string>,
    questions: seq<string>,
    finalized: bool,
    scheduleType: Option<string>,
    status: Option<string>,
    scheduledFor: Option<int>,
    startedAt: Option<int>,
    createdAt: int)

  /** A fetched interview: the stored data merged with its document id. */
  datatype Doc = Doc(id: string, data: Interview)

  /** One per-category score produced by the feedback generator. */
  datatype CategoryScore = CategoryScore(name: string, score: int)

  /** What the feedback generator returns for a transcript. */
  datatype Assessment = Assessment(
    totalScore: int,
    categoryScores: seq<CategoryScore>,
    strengths: seq<string>,
    areasForImprovement: seq<string>,
    finalAssessment: string)

  /** A feedback record as stored (without its document id). */
  datatype Feedback = Feedback(
    interviewId: string,
    userId: string,
    totalScore: int,
    categoryScores: seq<CategoryScore>,
    strengths: seq<string>,
    areasForImprovement: seq<string>,
    finalAssessment: string,
    createdAt: int)

  /** A fetched feedback record merged with its document id. */
  datatype FeedbackDoc = FeedbackDoc(id: string, data: Feedback)
}
