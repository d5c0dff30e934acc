/** The answer parser of `evaluate_answer` and the follow-up hint: pure
    functions of the language model's (already stripped) reply. */
module AnswerParser {
  import opened Wrappers
  import opened Text

  /** The score assumed for a dimension the reply does not mention. */
  const DefaultScore: nat := 6

  /** Every grade below this value earns the follow-up hint. */
  const HintThreshold: nat := 6

  /** The word the feedback split looks for, compared case-insensitively. */
  const FeedbackLabel := "feedback"

  /** The feedback used when the reply never mentions the word "feedback". */
  const NoFeedback := "No specific feedback given."

  /** The three grades of one evaluated answer. */
  datatype ScoreRecord = ScoreRecord(clarity: nat, accuracy: nat, depth: nat)

  /** What `evaluate_answer` returns: the feedback text and the grades. */
  datatype Evaluation = Evaluation(feedback: string, score: ScoreRecord)

  predicate IsSep(c: char) {
    c == ':' || c == '-'
  }

  /** `word` occurs in `s` at position `i`, letters compared case-insensitively. */
  predicate LabelAt(s: string, word: string, i: int) {
    0 <= i && i + |word| <= |s| && forall k :: 0 <= k < |word| ==> Lower(s[i + k]) == Lower(word[k])
  }

  // ---------------------------------------------------------------------------
  // Score extraction: the leftmost case-insensitive match of the label, an
  // optional separator surrounded by whitespace, and a captured run of digits
  // ---------------------------------------------------------------------------

  /** `s[j..d]` is matched by `\s*[:\-]?\s*`: whitespace containing at most one
      `:` or `-`. */
  ghost predicate GapBetween(s: string, j: nat, d: nat) {
    j <= d <= |s|
    && (forall k :: j <= k < d ==> IsSpace(s[k]) || IsSep(s[k]))
    && (forall k, k' :: j <= k < k' < d && IsSep(s[k]) ==> !IsSep(s[k']))
  }

  /** The score pattern for `word` matches at position `i`, and its digit
      group starts at position `d`. */
  ghost predicate MatchAt(s: string, word: string, i: nat, d: nat) {
    LabelAt(s, word, i) && GapBetween(s, i + |word|, d) && d < |s| && IsDigit(s[d])
  }

  /** `s[d..e]` is a maximal run of digits, as the greedy `(\d+)` captures it. */
  ghost predicate MaximalDigitRun(s: string, d: nat, e: nat) {
    d < e <= |s| && AllDigits(s[d..e]) && (e == |s| || !IsDigit(s[e]))
  }

  /** Where a greedy `\s*[:\-]?\s*` starting at `j` stops. */
  function GapEnd(s: string, j: nat): (e: nat)
    requires j <= |s|
    ensures GapBetween(s, j, e)
    ensures e == |s| || !IsSpace(s[e])
  {
    var a := SkipWhile(s, j, IsSpace);
    var b := if a < |s| && IsSep(s[a]) then a + 1 else a;
    SkipWhile(s, b, IsSpace)
  }

  /** A digit can follow the gap at only one position, so the backtracking of
      the regex engine cannot find a different digit group than `GapEnd`. */
  lemma GapDigitUnique(s: string, j: nat, d: nat)
    requires j <= |s| && GapBetween(s, j, d) && d < |s| && IsDigit(s[d])
    ensures d == GapEnd(s, j)
  {
    var a := SkipWhile(s, j, IsSpace);
    var b := if a < |s| && IsSep(s[a]) then a + 1 else a;
    var e := SkipWhile(s, b, IsSpace);
    assert e == GapEnd(s, j);
    // Inside the greedy gap every character is whitespace or the one separator at a.
    assert forall k :: j <= k < e ==> IsSpace(s[k]) || (k == a && IsSep(s[k]));
  }

  /** The attempt of `re.search` at position `i`: the value of the digit group
      when the score pattern for `word` matches there. */
  function ScoreAt(s: string, word: string, i: nat): (r: Option<nat>)
    ensures r.Some? ==> LabelAt(s, word, i) && MatchAt(s, word, i, GapEnd(s, i + |word|))
  {
    if LabelAt(s, word, i) then
      var d := GapEnd(s, i + |word|);
      if d < |s| && IsDigit(s[d]) then
        var e := SkipWhile(s, d, IsDigit);
        assert MatchAt(s, word, i, d) && MaximalDigitRun(s, d, e);
        Some(DecimalValue(s[d..e]))
      else None
    else None
  }

  /** Whenever the pattern matches at `i`, `ScoreAt` reports the value of the
      maximal digit run that the match captures. */
  lemma ScoreAtMatch(s: string, word: string, i: nat, d: nat, e: nat)
    requires MatchAt(s, word, i, d) && MaximalDigitRun(s, d, e)
    ensures ScoreAt(s, word, i) == Some(DecimalValue(s[d..e]))
  {
    GapDigitUnique(s, i + |word|, d);
    forall k | d <= k < e
      ensures IsDigit(s[k])
    {
      assert s[k] == s[d..e][k - d];
    }
    SkipWhileIs(s, d, e, IsDigit);
  }

  /** The positions where the score pattern for `word` matches. */
  function ScoreMatches(s: string, word: string): nat -> bool {
    (i: nat) => ScoreAt(s, word, i).Some?
  }

  /** `extract_score(word)`: the group of the leftmost match, or the default. */
  function ExtractScore(s: string, word: string): nat {
    match FirstFrom(ScoreMatches(s, word), 0, |s|)
    case Some(i) => ScoreAt(s, word, i).value
    case None => DefaultScore
  }

  /** If the leftmost match of the score pattern is at `i` with digit group
      `s[d..e]`, the extracted score is the integer value of that group. */
  lemma ExtractScoreFirstMatch(s: string, word: string, i: nat, d: nat, e: nat)
    requires MatchAt(s, word, i, d) && MaximalDigitRun(s, d, e)
    requires forall i': nat, d': nat :: i' < i ==> !MatchAt(s, word, i', d')
    ensures ExtractScore(s, word) == DecimalValue(s[d..e])
  {
    ScoreAtMatch(s, word, i, d, e);
    var p := ScoreMatches(s, word);
    forall k: nat | k < i
      ensures !p(k)
    {
      assert !MatchAt(s, word, k, GapEnd(s, k + |word|));
    }
    FirstFromIs(p, 0, |s|, i);
  }

  /** If the score pattern matches nowhere, the extracted score is 6. */
  lemma ExtractScoreNoMatch(s: string, word: string)
    requires forall i: nat, d: nat :: !MatchAt(s, word, i, d)
    ensures ExtractScore(s, word) == DefaultScore
  {
    var p := ScoreMatches(s, word);
    match FirstFrom(p, 0, |s|)
    case None =>
    case Some(j) =>
      assert p(j);
  }

  /** The converse: a score other than 6 always comes from a match of the
      pattern, and every extracted score is the value of a decimal group. */
  lemma ExtractScoreHasMatch(s: string, word: string)
    ensures ExtractScore(s, word) == DefaultScore
            || exists i: nat, d: nat, e: nat :: MatchAt(s, word, i, d) && MaximalDigitRun(s, d, e)
                                 && ExtractScore(s, word) == DecimalValue(s[d..e])
  {
    var p := ScoreMatches(s, word);
    match FirstFrom(p, 0, |s|)
    case None =>
    case Some(j) =>
      assert p(j);
      var d := GapEnd(s, j + |word|);
      var e := SkipWhile(s, d, IsDigit);
      assert MatchAt(s, word, j, d) && MaximalDigitRun(s, d, e);
      ScoreAtMatch(s, word, j, d, e);
  }

  /** There is no upper cap: every natural number is the extracted score of
      some reply. */
  lemma ExtractScoreUnbounded(word: string, n: nat)
    ensures ExtractScore(word + ": " + NatToDecimal(n), word) == n
  {
    var digits := NatToDecimal(n);
    var s := word + ": " + digits;
    var d := |word| + 2;
    assert s[..|word|] == word;
    assert LabelAt(s, word, 0);
    assert s[|word|] == ':' && s[|word| + 1] == ' ';
    assert GapBetween(s, |word|, d);
    assert s[d..|s|] == digits;
    assert s[d] == digits[0];
    assert MatchAt(s, word, 0, d) && MaximalDigitRun(s, d, |s|);
    ExtractScoreFirstMatch(s, word, 0, d, |s|);
  }

  // ---------------------------------------------------------------------------
  // Feedback extraction: the trimmed second piece of the reply when it is cut
  // at every case-insensitive "feedback" with its trailing delimiter
  // ---------------------------------------------------------------------------

  /** `s[b..e]` is matched by `\s*[:\-]?`. */
  ghost predicate DelimiterBetween(s: string, b: nat, e: nat) {
    b <= e <= |s| && forall k :: b <= k < e ==> IsSpace(s[k]) || (k == e - 1 && IsSep(s[k]))
  }

  /** `s[b..e]` is the longest text matched by `\s*[:\-]?` at `b`, which is what
      the greedy pattern consumes. */
  ghost predicate LongestDelimiter(s: string, b: nat, e: nat) {
    DelimiterBetween(s, b, e) && forall e': nat :: e < e' <= |s| ==> !DelimiterBetween(s, b, e')
  }

  /** Where the delimiter tail `\s*[:\-]?` that starts at `b` ends. */
  function DelimiterEnd(s: string, b: nat): (e: nat)
    requires b <= |s|
    ensures LongestDelimiter(s, b, e)
  {
    var a := SkipWhile(s, b, IsSpace);
    var e := if a < |s| && IsSep(s[a]) then a + 1 else a;
    assert forall e' :: e < e' <= |s| && DelimiterBetween(s, b, e') ==> a < e' - 1 || (a == e' - 1 && !IsSep(s[a]));
    e
  }

  /** The positions where "feedback" occurs, in any letter case. */
  function FeedbackLabelAt(s: string): nat -> bool {
    (k: nat) => LabelAt(s, FeedbackLabel, k)
  }

  /** What `FirstFrom` reports about `FeedbackLabelAt`, restated in terms of `LabelAt`. */
  lemma FeedbackSearch(s: string, from: nat)
    ensures var r := FirstFrom(FeedbackLabelAt(s), from, |s|);
            (r.Some? ==> from <= r.value && LabelAt(s, FeedbackLabel, r.value)
                         && forall k :: from <= k < r.value ==> !LabelAt(s, FeedbackLabel, k))
            && (r.None? ==> forall k :: from <= k ==> !LabelAt(s, FeedbackLabel, k))
  {
    var p := FeedbackLabelAt(s);
    var r := FirstFrom(p, from, |s|);
    if r.Some? {
      assert p(r.value);
    }
    forall k | from <= k && (r.None? || k < r.value)
      ensures !LabelAt(s, FeedbackLabel, k)
    {
      if k < |s| {
        assert !p(k);
      }
    }
  }

  /** The first case-insensitive occurrence of "feedback" at or after `from`. */
  function NextFeedbackLabel(s: string, from: nat): (r: Option<nat>)
    ensures r.Some? ==> from <= r.value && LabelAt(s, FeedbackLabel, r.value)
                        && forall k :: from <= k < r.value ==> !LabelAt(s, FeedbackLabel, k)
    ensures r.None? ==> forall k :: from <= k ==> !LabelAt(s, FeedbackLabel, k)
  {
    FeedbackSearch(s, from);
    FirstFrom(FeedbackLabelAt(s), from, |s|)
  }

  /** Where the piece of the split that starts at `start` ends: at the next
      occurrence of "feedback", or at the end of the text. */
  function PieceEnd(s: string, start: nat): (stop: nat)
    requires start <= |s|
    ensures start <= stop <= |s|
    ensures stop == |s| || LabelAt(s, FeedbackLabel, stop)
    ensures forall k :: start <= k < stop ==> !LabelAt(s, FeedbackLabel, k)
  {
    match NextFeedbackLabel(s, start)
    case Some(j) => j
    case None => |s|
  }

  /** The second piece of the split: from the end of the first delimiter to the
      start of the second, or to the end of the text, trimmed; the fixed
      fallback when the split does not cut the text at all. */
  function ExtractFeedback(raw: string): string {
    match NextFeedbackLabel(raw, 0)
    case None => NoFeedback
    case Some(i) =>
      var start := DelimiterEnd(raw, i + |FeedbackLabel|);
      Strip(raw[start..PieceEnd(raw, start)])
  }

  /** The piece of the split that becomes the feedback, described by the
      positions of the first occurrence `i`, the end of its delimiter `start`
      and the next occurrence `stop` (the end of the text if there is none). */
  lemma ExtractFeedbackSegment(raw: string, i: nat, start: nat, stop: nat)
    requires LabelAt(raw, FeedbackLabel, i) && forall k :: 0 <= k < i ==> !LabelAt(raw, FeedbackLabel, k)
    requires LongestDelimiter(raw, i + |FeedbackLabel|, start)
    requires start <= stop <= |raw|
    requires stop == |raw| || LabelAt(raw, FeedbackLabel, stop)
    requires forall k :: start <= k < stop ==> !LabelAt(raw, FeedbackLabel, k)
    ensures ExtractFeedback(raw) == Strip(raw[start..stop])
  {
    assert NextFeedbackLabel(raw, 0) == Some(i);
    assert DelimiterEnd(raw, i + |FeedbackLabel|) == start;
    assert PieceEnd(raw, start) == stop;
  }

  /** An occurrence inside a slice is an occurrence in the whole text. */
  lemma LabelInSlice(s: string, lo: nat, hi: nat, word: string, k: int)
    requires lo <= hi <= |s| && LabelAt(s[lo..hi], word, k)
    ensures LabelAt(s, word, lo + k)
  {
    forall m | 0 <= m < |word|
      ensures Lower(s[lo + k + m]) == Lower(word[m])
    {
      assert s[lo..hi][k + m] == s[lo + k + m];
    }
  }

  /** A trimmed piece of `raw[start..stop]` contains no occurrence of the word
      when `raw` has none that starts in that range. */
  lemma StrippedPieceHasNoLabel(raw: string, start: nat, stop: nat)
    requires start <= stop <= |raw|
    requires forall k :: start <= k < stop ==> !LabelAt(raw, FeedbackLabel, k)
    ensures forall k :: !LabelAt(Strip(raw[start..stop]), FeedbackLabel, k)
  {
    var piece := raw[start..stop];
    var t := Strip(piece);
    var a := LeadingSpaces(piece);
    forall k | LabelAt(t, FeedbackLabel, k)
      ensures false
    {
      LabelInSlice(piece, a, a + |t|, FeedbackLabel, k);
      LabelInSlice(raw, start, stop, FeedbackLabel, a + k);
    }
  }

  /** When the reply mentions "feedback", the extracted feedback never contains
      the word again: the split stops at its next occurrence. */
  lemma ExtractedFeedbackHasNoLabel(raw: string)
    requires exists k :: LabelAt(raw, FeedbackLabel, k)
    ensures forall k :: !LabelAt(ExtractFeedback(raw), FeedbackLabel, k)
  {
    var i := NextFeedbackLabel(raw, 0).value;
    var start := DelimiterEnd(raw, i + |FeedbackLabel|);
    StrippedPieceHasNoLabel(raw, start, PieceEnd(raw, start));
  }

  lemma FallbackContainsLabel()
    ensures LabelAt(NoFeedback, FeedbackLabel, 12)
  {
    assert NoFeedback[12..20] == FeedbackLabel;
  }

  /** The feedback is the fixed fallback exactly when the reply never mentions
      "feedback": a cut-out piece can never spell the fallback, because the
      fallback itself contains the word. */
  lemma NoFeedbackIffNoLabel(raw: string)
    ensures ExtractFeedback(raw) == NoFeedback <==> forall k :: !LabelAt(raw, FeedbackLabel, k)
  {
    if exists k :: LabelAt(raw, FeedbackLabel, k) {
      ExtractedFeedbackHasNoLabel(raw);
      FallbackContainsLabel();
    }
  }

  // ---------------------------------------------------------------------------
  // The whole parse and the follow-up hint
  // ---------------------------------------------------------------------------

  /** The grades as the dictionary `{"clarity": .., "accuracy": .., "depth": ..}`. */
  function ScoreDict(r: ScoreRecord): (d: map<string, nat>)
    ensures d.Keys == {"clarity", "accuracy", "depth"}
    ensures d["clarity"] == r.clarity && d["accuracy"] == r.accuracy && d["depth"] == r.depth
  {
    map["clarity" := r.clarity, "accuracy" := r.accuracy, "depth" := r.depth]
  }

  /** Lines 79-90 of `evaluate_answer`: each grade is extracted on its own from
      the same reply, and the feedback from the split. */
  function ParseEvaluation(raw: string): (r: Evaluation)
    ensures r.score.clarity == ExtractScore(raw, "Clarity")
    ensures r.score.accuracy == ExtractScore(raw, "Accuracy")
    ensures r.score.depth == ExtractScore(raw, "Depth")
    ensures r.feedback == ExtractFeedback(raw)
  {
    var clarity := ExtractScore(raw, "Clarity");
    var accuracy := ExtractScore(raw, "Accuracy");
    var depth := ExtractScore(raw, "Depth");
    Evaluation(ExtractFeedback(raw), ScoreRecord(clarity, accuracy, depth))
  }

  /** `w` occurs in `t` as a contiguous piece. */
  ghost predicate Contains(t: string, w: string) {
    exists i :: 0 <= i <= |t| && w <= t[i..]
  }

  /** A piece glued between two others is contained in the result. */
  lemma ContainsInfix(a: string, w: string, b: string)
    ensures Contains(a + w + b, w)
  {
    assert w <= (a + w + b)[|a|..];
  }

  /** `follow_up_if_needed`: a hint naming the topic exactly when some grade is
      below 6; the empty dictionary (no answer graded) never gets a hint. */
  function FollowUpIfNeeded(score: map<string, nat>, topic: string): (hint: string)
    ensures hint != "" <==> exists v :: v in score.Values && v < HintThreshold
    ensures hint != "" ==> hint[0] == '\n' && Contains(hint, topic)
    ensures score == map[] ==> hint == ""
  {
    if exists v :: v in score.Values && v < HintThreshold then
      var prefix := "\n" + "\U{1F4A1} Follow-up: Can you improve your previous answer by handling edge cases or improving clarity in ";
      var hint := prefix + topic + "?";
      ContainsInfix(prefix, topic, "?");
      hint
    else ""
  }
}
