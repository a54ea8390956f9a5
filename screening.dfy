/**
 * The anxiety check-in questionnaire (src/pages/Test.tsx): seven questions in
 * the style of GAD-7, each answered with a score from 0 to 3, summed and banded
 * into one of four interpretations. An answer of -1 means "not answered yet".
 */
module Screening {
  import opened Wrappers
  import opened Storage

  const Questions: seq<string> := [
    "Feeling nervous, anxious, or on edge",
    "Not being able to stop or control worrying",
    "Worrying too much about different things",
    "Trouble relaxing",
    "Being so restless that it is hard to sit still",
    "Becoming easily annoyed or irritable",
    "Feeling afraid as if something awful might happen"
  ]

  datatype AnswerOption = AnswerOption(text: string, score: int)

  const Options: seq<AnswerOption> := [
    AnswerOption("Not at all", 0),
    AnswerOption("Several days", 1),
    AnswerOption("More than half the days", 2),
    AnswerOption("Nearly every day", 3)
  ]

  const Unanswered := -1

  const Minimal := "Minimal anxiety"
  const Mild := "Mild anxiety"
  const Moderate := "Moderate anxiety"
  const Severe := "Severe anxiety"

  /** A score one of the answer buttons can select. */
  predicate IsOptionScore(score: int) {
    exists o :: o in Options && o.score == score
  }

  /** One entry per question, each unanswered or an option's score. */
  predicate WellFormedAnswers(answers: seq<int>) {
    |answers| == |Questions|
    && forall i :: 0 <= i < |answers| ==> answers[i] == Unanswered || IsOptionScore(answers[i])
  }

  /** `!answers.includes(-1)` */
  predicate IsComplete(answers: seq<int>) {
    Unanswered !in answers
  }

  function AllUnanswered(): (answers: seq<int>)
    ensures WellFormedAnswers(answers) && forall i :: 0 <= i < |answers| ==> answers[i] == Unanswered
  {
    seq(|Questions|, _ => Unanswered)
  }

  /** `answers.reduce((a, b) => a + b, 0)` */
  function TotalScore(answers: seq<int>): int {
    if answers == [] then 0 else TotalScore(answers[..|answers| - 1]) + answers[|answers| - 1]
  }

  /** Option scores are exactly 0, 1, 2 and 3. */
  lemma OptionScores(score: int)
    ensures IsOptionScore(score) <==> 0 <= score <= 3
  {
    if 0 <= score <= 3 {
      assert Options[score].score == score;
    }
  }

  /** A sum of scores from 0 to 3 lies between 0 and three times the number of answers. */
  lemma {:induction false} TotalScoreBounds(answers: seq<int>)
    requires forall i :: 0 <= i < |answers| ==> 0 <= answers[i] <= 3
    ensures 0 <= TotalScore(answers) <= 3 * |answers|
  {
    if answers != [] {
      TotalScoreBounds(answers[..|answers| - 1]);
    }
  }

  /** A completed questionnaire scores between 0 and 21. */
  lemma CompleteScoreRange(answers: seq<int>)
    requires WellFormedAnswers(answers) && IsComplete(answers)
    ensures 0 <= TotalScore(answers) <= 21
  {
    forall i | 0 <= i < |answers|
      ensures 0 <= answers[i] <= 3
    {
      assert answers[i] in answers;
      OptionScores(answers[i]);
    }
    TotalScoreBounds(answers);
  }

  /** The interpretation of a total score: four bands split at 4, 9 and 14. */
  function Interpretation(score: int): (band: string)
    ensures band == Minimal <==> score <= 4
    ensures band == Mild <==> 5 <= score <= 9
    ensures band == Moderate <==> 10 <= score <= 14
    ensures band == Severe <==> score >= 15
  {
    if score <= 4 then Minimal
    else if score <= 9 then Mild
    else if score <= 14 then Moderate
    else Severe
  }

  /** The position of a band in the order minimal, mild, moderate, severe. */
  function Severity(band: string): nat {
    if band == Minimal then 0 else if band == Mild then 1 else if band == Moderate then 2 else 3
  }

  /** A higher score never falls into a milder band. */
  lemma InterpretationMonotone(lower: int, higher: int)
    requires lower <= higher
    ensures Severity(Interpretation(lower)) <= Severity(Interpretation(higher))
  {
  }

  /** The result page shows the warning, and the amber colour, for scores above 9. */
  predicate ShowsWarning(result: MentalHealthResult) {
    result.score > 9
  }

  /** The warning appears exactly for the moderate and severe bands. */
  lemma WarningMatchesBands(result: MentalHealthResult)
    requires result.interpretation == Interpretation(result.score)
    ensures ShowsWarning(result) <==> result.interpretation in {Moderate, Severe}
  {
  }

  /** The page state: the answers and the result once one was saved. */
  class Assessment {
    var answers: seq<int>
    var result: Option<MentalHealthResult>

    ghost predicate Valid()
      reads this
    {
      WellFormedAnswers(answers)
      && (result.Some? ==> 0 <= result.value.score <= 21
                           && result.value.interpretation == Interpretation(result.value.score))
    }

    /** The page opens with every question unanswered and no result. */
    constructor ()
      ensures Valid() && answers == AllUnanswered() && result == None
    {
      answers := AllUnanswered();
      result := None;
    }

    /** `handleSelect`: records one answer and leaves every other one as it was. */
    method Select(questionIndex: nat, score: int)
      requires Valid()
      requires questionIndex < |Questions| && IsOptionScore(score)
      modifies this
      ensures Valid()
      ensures answers == old(answers)[questionIndex := score] && result == old(result)
    {
      var newAnswers := answers;
      newAnswers := newAnswers[questionIndex := score];
      answers := newAnswers;
    }

    /** `reset`: back to every question unanswered and no result. */
    method Reset()
      modifies this
      ensures Valid() && answers == AllUnanswered() && result == None
    {
      answers := AllUnanswered();
      result := None;
    }

    /**
     * `calculateResult`: with every question answered and a user signed in,
     * scores the answers, appends the result to that user's results and shows
     * it; otherwise nothing happens.
     */
    method CalculateResult(store: StorageService, freshId: Id, now: string)
      requires Valid()
      modifies this, store
      ensures Valid() && answers == old(answers)
      ensures !IsComplete(answers) || old(store.CurrentUser()).None? ==>
                result == old(result) && store.State() == old(store.State())
      ensures IsComplete(answers) && old(store.CurrentUser()).Some? ==>
                var user := old(store.CurrentUser()).value;
                var score := TotalScore(answers);
                && result == Some(MentalHealthResult(freshId, user.id, now, score, Interpretation(score)))
                && 0 <= score <= 21
                && store.ResultsOf(user.id) == old(store.ResultsOf(user.id)) + [result.value]
                && (forall other :: other != user.id ==> store.ResultsOf(other) == old(store.ResultsOf(other)))
                && store.State() == old(store.State()).(results := store.results)
    {
      if !IsComplete(answers) {
        return;
      }
      var totalScore := TotalScore(answers);
      CompleteScoreRange(answers);
      var interpretation := Interpretation(totalScore);
      var user := store.CurrentUser();
      if user.Some? {
        var newResult := MentalHealthResult(freshId, user.value.id, now, totalScore, interpretation);
        store.SaveTestResult(user.value.id, newResult);
        result := Some(newResult);
      }
    }
  }
}
