/** What the three greeting quizzes share: a fixed list of multiple-choice
    questions walked through once, one answer per question, counting the
    right answers. */
module GreetingQuiz {

  datatype Question = Question(question: string, options: seq<string>, answer: string)

  /** The quiz components' three state fields: the question shown, the score
      so far and whether the final score is shown instead of a question. */
  datatype Progress = Progress(current: nat, score: nat, finished: bool)

  const Start: Progress := Progress(0, 0, false)

  /** Every question's right answer is one of the buttons it shows. */
  predicate AnswersOffered(qs: seq<Question>)
  {
    forall i :: 0 <= i < |qs| ==> qs[i].answer in qs[i].options
  }

  /** `handleAnswer(selected)`: score a right answer, then move to the next
      question, or, on the last one, stay there and show the score. */
  function Answer(qs: seq<Question>, p: Progress, selected: string): (r: Progress)
    requires p.current < |qs|
    ensures r.current < |qs|
  {
    var score := if selected == qs[p.current].answer then p.score + 1 else p.score;
    if p.current + 1 < |qs| then Progress(p.current + 1, score, p.finished)
    else Progress(p.current, score, true)
  }

  /** How many of `answers` are right for the question at their position. */
  function Correct(qs: seq<Question>, answers: seq<string>): (n: nat)
    requires |answers| <= |qs|
    ensures n <= |answers|
  {
    if answers == [] then 0
    else
      var k := |answers| - 1;
      Correct(qs, answers[..k]) + (if answers[k] == qs[k].answer then 1 else 0)
  }

  /** The state after the given answers, starting from the first question.
      Answer buttons are only offered while the score is not shown, and it
      is shown after the last question, so at most `|qs|` answers are given. */
  function Play(qs: seq<Question>, answers: seq<string>): (p: Progress)
    requires 0 < |qs| && |answers| <= |qs|
    ensures p.current < |qs|
  {
    if answers == [] then Start
    else Answer(qs, Play(qs, answers[..|answers| - 1]), answers[|answers| - 1])
  }

  /** After k answers: question k is shown (the last one once all are
      answered), the score counts the right answers, and the score is shown
      exactly when every question has been answered. */
  lemma {:induction false} PlayState(qs: seq<Question>, answers: seq<string>)
    requires 0 < |qs| && |answers| <= |qs|
    ensures Play(qs, answers) ==
      Progress(if |answers| < |qs| then |answers| else |qs| - 1,
               Correct(qs, answers),
               |answers| == |qs|)
  {
    if answers != [] {
      PlayState(qs, answers[..|answers| - 1]);
    }
  }

  /** While the score is not shown there is a question left to answer, and
      answering it is one `handleAnswer` step from the current state. */
  lemma PlayStep(qs: seq<Question>, answers: seq<string>, selected: string)
    requires 0 < |qs| && |answers| <= |qs| && !Play(qs, answers).finished
    ensures |answers| < |qs|
    ensures Play(qs, answers + [selected]) == Answer(qs, Play(qs, answers), selected)
  {
    PlayState(qs, answers);
    assert (answers + [selected])[..|answers|] == answers;
  }

  /** One more answer while a question is shown: the score grows by one
      exactly when the answer is right, and the quiz moves on by one question
      or, after the last one, shows the score. */
  lemma AnswerStep(qs: seq<Question>, answers: seq<string>, selected: string)
    requires 0 < |qs| && |answers| < |qs|
    ensures
      var before, after := Play(qs, answers), Play(qs, answers + [selected]);
      && !before.finished
      && after.score == before.score + (if selected == qs[before.current].answer then 1 else 0)
      && (before.current + 1 < |qs| ==> after.current == before.current + 1 && !after.finished)
      && (before.current + 1 == |qs| ==> after.current == before.current && after.finished)
  {
    PlayState(qs, answers);
    assert (answers + [selected])[..|answers|] == answers;
  }

  /** `0 <= score <= answers given <= |qs|`: the shown "score out of total"
      never exceeds the total. */
  lemma ScoreBounded(qs: seq<Question>, answers: seq<string>)
    requires 0 < |qs| && |answers| <= |qs|
    ensures Play(qs, answers).score <= |answers| <= |qs|
  {
    PlayState(qs, answers);
  }

  /** The right answers, in question order. */
  function Key(qs: seq<Question>): (key: seq<string>)
    ensures |key| == |qs| && forall i :: 0 <= i < |qs| ==> key[i] == qs[i].answer
  {
    if qs == [] then [] else [qs[0].answer] + Key(qs[1..])
  }

  /** When every right answer is offered, pressing it each time is possible
      and scores every question. */
  lemma PerfectScoreReachable(qs: seq<Question>)
    requires 0 < |qs| && AnswersOffered(qs)
    ensures forall i :: 0 <= i < |qs| ==> Key(qs)[i] in qs[i].options
    ensures Play(qs, Key(qs)) == Progress(|qs| - 1, |qs|, true)
  {
    PlayState(qs, Key(qs));
    AllCorrect(qs, Key(qs));
  }

  lemma {:induction false} AllCorrect(qs: seq<Question>, answers: seq<string>)
    requires |answers| <= |qs|
    requires forall i :: 0 <= i < |answers| ==> answers[i] == qs[i].answer
    ensures Correct(qs, answers) == |answers|
  {
    if answers != [] {
      AllCorrect(qs, answers[..|answers| - 1]);
    }
  }
}
