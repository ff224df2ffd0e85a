/** The Teke greeting quiz component. */
module TekeQuiz {

  import opened GreetingQuiz

  const Questions: seq<Question> := [
    Question("Comment dit-on 'Bonjour' en Téké ?", ["Niawu", "Mbote", "Ndomba"], "Niawu"),
    Question("Comment dit-on 'Bonsoir' en Téké ?", ["Buna niawu", "Wana mbolo", "Ekele meso"], "Buna niawu"),
    Question("Comment saluer une femme âgée en Téké ?", ["Niawu mama", "Mbote mama", "Ndomba mama"], "Niawu mama")
  ]

  /** Three questions, each offering its right answer. */
  lemma QuestionsOfferTheirAnswers()
    ensures |Questions| == 3 && AnswersOffered(Questions)
  {
  }

  /** The score is shown after exactly three answers and not before. */
  lemma ScoreShownAfterThreeAnswers(answers: seq<string>)
    requires |answers| <= |Questions|
    ensures |Questions| == 3
    ensures Play(Questions, answers).finished <==> |answers| == 3
  {
    PlayState(Questions, answers);
  }

  class TekeGreetingQuiz {
    var currentQuestion: nat
    /** The component's question list. */
    const questions: seq<Question>
    var score: nat
    var showScore: bool
    /** The options pressed so far. */
    ghost var answers: seq<string>

    /** The three fields are the state the answers given so far lead to. */
    ghost predicate Valid()
      reads this
    {
      0 < |questions| && |answers| <= |questions| && Play(questions, answers) == Progress(currentQuestion, score, showScore)
    }

    constructor ()
      ensures Valid() && answers == [] && questions == Questions
      ensures currentQuestion == 0 && score == 0 && !showScore
    {
      currentQuestion, score, showScore := 0, 0, false;
      questions := Questions;
      answers := [];
    }

    /** `handleAnswer`, reachable only through the buttons of a shown question. */
    method HandleAnswer(selectedOption: string)
      requires Valid() && !showScore
      modifies this
      ensures Valid() && answers == old(answers) + [selectedOption]
      ensures currentQuestion < |questions|
      ensures score == old(score) + if selectedOption == questions[old(currentQuestion)].answer then 1 else 0
      ensures old(currentQuestion) + 1 < |questions| ==> currentQuestion == old(currentQuestion) + 1 && !showScore
      ensures old(currentQuestion) + 1 == |questions| ==> currentQuestion == old(currentQuestion) && showScore
    {
      PlayStep(questions, answers, selectedOption);
      var isCorrect := selectedOption == questions[currentQuestion].answer;
      if isCorrect {
        score := score + 1;
      }
      var nextQuestion := currentQuestion + 1;
      if nextQuestion < |questions| {
        currentQuestion := nextQuestion;
      } else {
        showScore := true;
      }
      answers := answers + [selectedOption];
    }

    /** "Votre score est {score} sur {questions.length}". */
    method ScoreLine() returns (shown: nat, total: nat)
      requires Valid() && showScore
      ensures shown == score && total == |questions| && shown <= total
      ensures |answers| == total
    {
      PlayState(questions, answers);
      shown, total := score, |questions|;
    }
  }
}
