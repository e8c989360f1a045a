/**
 * The records the completed-tests export reads and produces: answersheets
 * (a student's submission for one test), tests, subjects and the rows of
 * the export file. Store identifiers are compared by their string form,
 * so an identifier is a string here.
 */
module Records {

  type Id = string

  /** A test status, compared with strict string equality. */
  type Status = string

  datatype Option<T> = None | Some(value: T)

  /** An answersheet's score: either one number or one number per question. */
  datatype Score = Scalar(value: int) | PerQuestion(values: seq<int>)

  /** A completed submission, as projected by the fetch: its test, answers and score. */
  datatype Answersheet = Answersheet(test: Id, answers: seq<string>, score: Score)

  datatype Question = Question(marks: int)

  /** A test; only its status is ever changed by the export. */
  datatype Test = Test(
    id: Id,
    title: string,
    status: Status,
    maxMarks: int,
    subjects: seq<Id>,
    questions: seq<Question>)

  datatype Subject = Subject(id: Id, name: string)

  /** One line of the export, with the six columns in file order. */
  datatype Row = Row(
    title: string,
    status: Status,
    maxMarks: int,
    subjects: string,
    score: int,
    questions: nat)
}
