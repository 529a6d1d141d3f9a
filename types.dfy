/**
 * The records the lesson generator passes around: the editable content blocks that
 * are the source of truth of a lesson, the generation parameters, the lesson the
 * content gateway returns, and the view modes of the main screen.
 */
module Types {
  import opened Wrappers

  datatype PracticeQuestion = PracticeQuestion(question: string, answer: string)

  datatype WordProblem = WordProblem(question: string, steps: seq<string>, answer: string)

  /** The structured, hand-editable content of a lesson. Every field is always present. */
  datatype EditableBlocks = EditableBlocks(
    title: string,
    objective: string,
    introText: string,
    workedExampleSteps: seq<string>,
    practiceQuestions: seq<PracticeQuestion>,
    wordProblem: WordProblem,
    reflectionQuestion: string)

  /** An uploaded source chapter, base64-encoded. */
  datatype Pdf = Pdf(name: string, data: string, mimeType: string)

  /** What the author asked for; `refinedBlocks` is set only when regenerating from edited blocks. */
  datatype LessonParams = LessonParams(
    grade: string,
    subject: string,
    loCode: string,
    learningObjective: string,
    topicOutcome: string,
    regionalLanguage: string,
    ncertContext: Option<string>,
    ncertPdf: Option<Pdf>,
    customIcon: Option<string>,
    refinedBlocks: Option<EditableBlocks>)

  /** A lesson as the gateway returns it: two page tracks and the blocks they were rendered from. */
  datatype GeneratedLesson = GeneratedLesson(
    regionalHtmlPages: seq<string>,
    englishHtmlPages: seq<string>,
    editableBlocks: EditableBlocks)

  /** One extra page, in both languages, as the add-page gateway call returns it. */
  datatype NewPage = NewPage(regional: string, english: string)

  datatype ViewMode = Form | Split | RegionalOnly | EnglishOnly | EditBlocks

  /**
   * What a failed gateway call throws: an `Error` object carries a message; anything
   * else thrown carries none.
   */
  datatype Thrown = ErrorObject(message: string) | OtherValue
}
