/**
 * The records of pkg/models: a task with its stages, and the study guide that
 * a completed task carries. Times and durations are abstract naturals read
 * from a monotone clock; JSON field tags are not modelled.
 */
module Models {
  import opened Wrappers

  /** The four-valued status shared by tasks and stages. */
  datatype TaskStatus = Pending | Processing | Completed | Failed

  /** One named phase of a task; `error` is "" unless the stage failed. */
  datatype Stage = Stage(
    name: string,
    status: TaskStatus,
    startTime: nat,
    duration: nat,
    error: string)

  datatype TimelineEntry = TimelineEntry(timestamp: string, event: string)

  datatype VisualBit = VisualBit(gridIndex: int, itemIndex: int, timestamp: string, explanation: string)

  datatype ExternalResource = ExternalResource(kind: string, title: string, url: string)

  datatype QuizQuestion = QuizQuestion(question: string, options: seq<string>, answer: string)

  datatype StudyGuide = StudyGuide(
    title: string,
    summary: string,
    keyPoints: seq<string>,
    glossary: seq<map<string, string>>,
    timeline: seq<TimelineEntry>,
    visualAnalysis: seq<VisualBit>,
    externalResources: seq<ExternalResource>,
    quiz: seq<QuizQuestion>)

  /** The zero value of a study guide: what decoding starts from. */
  const EmptyGuide := StudyGuide("", "", [], [], [], [], [], [])

  /** The outcome of a completed task; `imagePath` is the primary grid. */
  datatype AnalysisResult = AnalysisResult(
    transcription: seq<TimelineEntry>,
    studyGuide: StudyGuide,
    imagePath: string)

  datatype Task = Task(
    id: string,
    originalName: string,
    storedName: string,
    status: TaskStatus,
    stages: seq<Stage>,
    totalTime: nat,
    result: Option<AnalysisResult>,
    createdAt: nat,
    updatedAt: nat)
}
