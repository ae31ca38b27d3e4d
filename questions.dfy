/**
 * A stored question as the import commands build it and the game loops read
 * it: the question text, its accepted answers, how many answers it asks for
 * (`multi`) and an optional image URL.
 */
module QuestionSets {
  import opened Types

  datatype Question = Question(question: string, answer: seq<string>, multi: nat, img: Option<string>)
}
