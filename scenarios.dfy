/** Concrete instances of the parser and of the completion arithmetic. */
module Scenarios {
  import opened Wrappers
  import opened Text
  import opened AnswerParser
  import opened Interviewer

  // A reply that labels each grade in a different style and ends with a
  // feedback line; the `Sample` lemmas take it as `s`.

  /** "Clarity: 7": the label is followed by a colon and a space. */
  lemma SampleClarity(s: string)
    requires s == "Clarity: 7\n" + "Accuracy - 9\n" + "Depth 5\n" + "Feedback: Good job"
    ensures ExtractScore(s, "Clarity") == 7
  {
    assert LabelAt(s, "Clarity", 0);
    assert GapBetween(s, 7, 9);
    assert s[9..10] == "7";
    assert MatchAt(s, "Clarity", 0, 9) && MaximalDigitRun(s, 9, 10);
    ExtractScoreFirstMatch(s, "Clarity", 0, 9, 10);
  }

  /** "Accuracy - 9": a dash surrounded by spaces. */
  lemma SampleAccuracy(s: string)
    requires s == "Clarity: 7\n" + "Accuracy - 9\n" + "Depth 5\n" + "Feedback: Good job"
    ensures ExtractScore(s, "Accuracy") == 9
  {
    assert LabelAt(s, "Accuracy", 11);
    assert GapBetween(s, 19, 22);
    assert s[22..23] == "9";
    assert MatchAt(s, "Accuracy", 11, 22) && MaximalDigitRun(s, 22, 23);
    forall i: nat, d: nat | i < 11
      ensures !MatchAt(s, "Accuracy", i, d)
    {
      if i == 2 {
        assert Lower(s[i + 1]) != Lower("Accuracy"[1]);
      } else {
        assert Lower(s[i + 0]) != Lower("Accuracy"[0]);
      }
    }
    ExtractScoreFirstMatch(s, "Accuracy", 11, 22, 23);
  }

  /** "Depth 5": no separator at all. */
  lemma SampleDepth(s: string)
    requires s == "Clarity: 7\n" + "Accuracy - 9\n" + "Depth 5\n" + "Feedback: Good job"
    ensures ExtractScore(s, "Depth") == 5
  {
    assert LabelAt(s, "Depth", 24);
    assert GapBetween(s, 29, 30);
    assert s[30..31] == "5";
    assert MatchAt(s, "Depth", 24, 30) && MaximalDigitRun(s, 30, 31);
    forall i: nat, d: nat | i < 24
      ensures !MatchAt(s, "Depth", i, d)
    {
      assert Lower(s[i + 0]) != Lower("Depth"[0]);
    }
    ExtractScoreFirstMatch(s, "Depth", 24, 30, 31);
  }

  /** Trimming drops the single leading space. */
  lemma StripGoodJob(t: string)
    requires t == " Good job"
    ensures Strip(t) == "Good job"
  {
    SkipWhileIs(t, 0, 1, IsSpace);
    var r := Strip(t);
    assert !AllSpace(t) by { assert !IsSpace(t[1]); }
  }

  /** The labels of `SampleFeedback`: the only "feedback" starts at 32. */
  lemma SampleFeedbackLabel(s: string)
    requires s == "Clarity: 7\n" + "Accuracy - 9\n" + "Depth 5\n" + "Feedback: Good job"
    ensures LabelAt(s, FeedbackLabel, 32)
    ensures forall k :: 0 <= k < |s| && k != 32 ==> !LabelAt(s, FeedbackLabel, k)
  {
    forall k | 0 <= k < |s| && k != 32
      ensures !LabelAt(s, FeedbackLabel, k)
    {
      if k < 43 {
        assert Lower(s[k + 0]) != Lower(FeedbackLabel[0]);
      }
    }
  }

  /** The feedback step of `SampleFeedback`, for any text of that shape. */
  lemma FeedbackAfterLastLabel(s: string)
    requires |s| == 50 && LabelAt(s, FeedbackLabel, 32)
    requires forall k :: 0 <= k < |s| && k != 32 ==> !LabelAt(s, FeedbackLabel, k)
    requires s[40] == ':' && s[41..|s|] == " Good job"
    ensures ExtractFeedback(s) == "Good job"
  {
    SkipWhileIs(s, 40, 40, IsSpace);
    ExtractFeedbackSegment(s, 32, 41, |s|);
    StripGoodJob(s[41..|s|]);
  }

  /** "Feedback: Good job": the text after the colon, trimmed. */
  lemma SampleFeedback(s: string)
    requires s == "Clarity: 7\n" + "Accuracy - 9\n" + "Depth 5\n" + "Feedback: Good job"
    ensures ExtractFeedback(s) == "Good job"
  {
    SampleFeedbackLabel(s);
    assert s[41..|s|] == " Good job";
    FeedbackAfterLastLabel(s);
  }

  /** The whole parse of the sample reply: grades 7, 9 and 5, and the text
      after "Feedback:" as the feedback. */
  lemma SampleEvaluation(s: string)
    requires s == "Clarity: 7\n" + "Accuracy - 9\n" + "Depth 5\n" + "Feedback: Good job"
    ensures ParseEvaluation(s) == Evaluation("Good job", ScoreRecord(7, 9, 5))
  {
    SampleClarity(s);
    SampleAccuracy(s);
    SampleDepth(s);
    SampleFeedback(s);
  }

  /** Appending a record adds its grade to the total. */
  lemma TotalAppend(rs: seq<ScoreRecord>, r: ScoreRecord, m: Metric)
    ensures Total(rs + [r], m) == Total(rs, m) + Grade(r, m)
  {
    assert (rs + [r])[..|rs|] == rs;
  }

  /** The completion arithmetic: when the five recorded grade records
      (this turn's included) total 40, 45 and 35, the final reply reports the
      averages 8, 9 and 7 and the session is complete. */
  lemma CompletionAverages(s0: Session, req: Request, llm: Llm)
    requires req.stage >= StageLimit && EvaluateAnswer(llm, req.userResponse, req.topic).Ok?
    requires |s0.scores| == 4
    requires var g := EvaluateAnswer(llm, req.userResponse, req.topic).value.score;
             Total(s0.scores, Clarity) + g.clarity == 40
             && Total(s0.scores, Accuracy) + g.accuracy == 45
             && Total(s0.scores, Depth) + g.depth == 35
    ensures SessionTurn(s0, req, llm).0.complete && SessionTurn(s0, req, llm).1.complete
    ensures SessionTurn(s0, req, llm).1.score == ScoreDict(ScoreRecord(8, 9, 7))
  {
    var g := EvaluateAnswer(llm, req.userResponse, req.topic).value.score;
    TotalAppend(s0.scores, g, Clarity);
    TotalAppend(s0.scores, g, Accuracy);
    TotalAppend(s0.scores, g, Depth);
    AverageOfTotals(s0.scores + [g]);
    SessionTurnCompletes(s0, req, llm);
  }

  /** Totals 40, 45 and 35 average to 8, 9 and 7. */
  lemma AverageOfTotals(scores: seq<ScoreRecord>)
    requires Total(scores, Clarity) == 40 && Total(scores, Accuracy) == 45 && Total(scores, Depth) == 35
    ensures Average(scores) == ScoreRecord(8, 9, 7)
  {
  }
}
