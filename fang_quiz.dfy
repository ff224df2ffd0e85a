/** The Fang greeting quiz component, whose state fields are `step`, `score`
    and `finished`. */
module FangQuiz {

  import opened GreetingQuiz

  const Questions: seq<Question> := [
    Question("Comment dit-on 'Bonjour' en fang (formel) ?", ["Mbolo", "Wa’a", "Oyié"], "Mbolo"),
    Question("Comment dit-on 'Comment ça va ?'", ["Me wa’a", "Wa’a ?", "Mbolo bé"], "Wa’a ?"),
    Question("Quelle est la réponse à 'Wa’a ?'", ["Oyié", "Me wa’a", "Mbolo"], "Me wa’a")
  ]

  /** Three questions, each offering its right answer. */
  lemma QuestionsOfferTheirAnswers()
    ensures |Questions| == 3 && AnswersOffered(Questions)
  {
  }

  /** The score is shown after exactly three answers and not before. */
  lemma ScoreShownAfterThreeAnswers(answers: seq<string>)
    requires |answers| <= |Questions|
    ensures |Questions| == 3
    ensures Play(Questions, answers).finished <==> |answers| == 3
  {
    PlayState(Questions, answers);
  }

  class FangGreetingQuiz {
    var step: nat
    /** The component's question list. */
    const questions: seq<Question>
    var score: nat
    var finished: bool
    /** The options pressed so far. */
    ghost var answers: seq<string>

    /** The three fields are the state the answers given so far lead to. */
    ghost predicate Valid()
      reads this
    {
      0 < |questions| && |answers| <= |questions| && Play(questions, answers) == Progress(step, score, finished)
    }

    constructor ()
      ensures Valid() && answers == [] && questions == Questions
      ensures step == 0 && score == 0 && !finished
    {
      step, score, finished := 0, 0, false;
      questions := Questions;
      answers := [];
    }

    /** `handleAnswer`, reachable only through the buttons of a shown question. */
    method HandleAnswer(opt: string)
      requires Valid() && !finished
      modifies this
      ensures Valid() && answers == old(answers) + [opt]
      ensures step < |questions|
      ensures score == old(score) + if opt == questions[old(step)].answer then 1 else 0
      ensures old(step) + 1 < |questions| ==> step == old(step) + 1 && !finished
      ensures old(step) + 1 == |questions| ==> step == old(step) && finished
    {
      PlayStep(questions, answers, opt);
      if opt == questions[step].answer {
        score := score + 1;
      }
      var next := step + 1;
      if next < |questions| {
        step := next;
      } else {
        finished := true;
      }
      answers := answers + [opt];
    }

    /** "Tu as obtenu {score} / {questions.length}". */
    method ScoreLine() returns (shown: nat, total: nat)
      requires Valid() && finished
      ensures shown == score && total == |questions| && shown <= total
      ensures |answers| == total
    {
      PlayState(questions, answers);
      shown, total := score, |questions|;
    }
  }
}
