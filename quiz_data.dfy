/** The values the quiz widget passes around: the four personality labels, questions
    with their options, and the payloads written to storage. */
module QuizData {

  /** The personality types, in the order in which the scoring table declares them. */
  datatype Label = Explorer | Connector | Achiever | Innovator

  /** Declaration order of the labels; the tie-break of the scoring follows it. */
  const Declared: seq<Label> := [Explorer, Connector, Achiever, Innovator]

  /** Position of a label in the declaration order. */
  function Rank(l: Label): (k: nat)
    ensures k < |Declared| && Declared[k] == l
  {
    match l
    case Explorer => 0
    case Connector => 1
    case Achiever => 2
    case Innovator => 3
  }

  /** An answer option. Its type tag is one of the four labels by construction. */
  datatype QuizOption = QuizOption(text: string, kind: Label)

  datatype Question = Question(id: string, text: string, options: seq<QuizOption>)

  /** The progress object the widget saves: the index shown and the answers so far,
      keyed by question identifier. */
  datatype Progress = Progress(currentQuestion: int, answers: map<string, QuizOption>)

  /** The object the widget submits on completion. */
  datatype Results = Results(answers: map<string, QuizOption>, completedAt: int)
}
