# AI interviewer: answer parser and turn controller

This project is a Dafny model of the core of `interviewer_app.py`. That file
runs a mock technical interview over one HTTP endpoint.

- Each call to `/interview` carries a session id, a topic, the caller's stage
  number and the candidate's answer.
- The server keeps every session in the process-wide dictionary
  `interview_sessions`.
- On a call with a stage above 0, the server has a language model grade the
  answer. It pulls three grades and a feedback text out of the model's
  free-form reply.
- At stage 5 or later, the call ends the interview with averaged grades.
- Otherwise, the call asks the model for the next question.
- Any exception turns into a fixed error reply.

Nothing in this project was executed. What it claims is what the verifier
proves about the model.

The model has these modules:

- `Wrappers` (`wrappers.dfy`): `Option`, and `Outcome`, which stands for a
  value or a raised exception.
- `Text` (`text.dfy`): Python's ASCII whitespace and digit classes,
  `str.strip`, `int` and `str` on decimal numerals, and the leftmost-position
  search.
- `AnswerParser` (`answer_parser.dfy`): the regex score extraction
  (`extract_score`), the `re.split` feedback extraction, the score dictionary,
  and `follow_up_if_needed`. These are pure functions, as in the source.
- `Interviewer` (`interviewer.dfy`):
  - the session record, the store, requests and replies;
  - the two model calls;
  - one turn as the function `Turn`;
  - the class `InterviewService`. Its field `sessions` is
    `interview_sessions`, and its method `Interview` handles a request step by
    step. The ensures clause of `Interview` ties it to `Turn`.
- `InterviewerProperties` (`interviewer_properties.dfy`): properties of any
  sequence of turns (`Run`), including the end-to-end six-call interview.
- `Scenarios` (`scenarios.dfy`): a concrete reply parsed end to end, and the
  completion arithmetic on concrete totals.

The language model is a parameter, `Llm = Prompt -> Outcome<string>`. For each
of the two prompts it gives the reply text or a raised exception.

- A question prompt is identified by `(topic, stage + 1)`.
- An evaluation prompt is identified by `(answer, topic)`.

Characters are restricted to ASCII:

- "whitespace" is space, `\t` through `\r`, and `\x1c` through `\x1f`;
- digits are `0` through `9`;
- case folding maps `A`-`Z` to `a`-`z`.

The score pattern is modelled as the code writes it: the label, optional
whitespace, at most one `:` or `-`, optional whitespace, then a greedy run of
digits. The score is the value of the digit run of the leftmost position where
this pattern matches. `GapDigitUnique` shows that backtracking cannot pick a
different digit run. The score pattern `\s*[:\-]?\s*` allows whitespace on
both sides of the separator. The split delimiter `feedback\s*[:\-]?`
(interviewer_app.py:87) allows it only before the separator.

## Model

| member | source | states |
|---|---|---|
| Text.Strip | interviewer_app.py:59 | The result is the slice of the input after its leading whitespace, with only whitespace after it. It neither starts nor ends with whitespace, and it is empty exactly when the input is all whitespace. |
| Text.NatToDecimal | interviewer_app.py:127-129 | The numeral printed for an average has at least one digit and reads back as the same number. It has no leading zero, and zero prints as `0`. |
| Text.FirstFrom | interviewer_app.py:80 | The position found satisfies the predicate and no earlier one does. If there is none, no position in range satisfies it. |
| Text.FirstFromIs | interviewer_app.py:80 | Conversely, a satisfying position with none before it is the one that is found. |
| AnswerParser.GapEnd | interviewer_app.py:80 | The greedy `\s*[:\-]?\s*` stops at a gap of whitespace with at most one separator, and not before more whitespace. |
| AnswerParser.GapDigitUnique | interviewer_app.py:80 | A digit can follow a valid gap only where the greedy gap ends, so backtracking never yields another digit group. |
| AnswerParser.ScoreAtMatch | interviewer_app.py:80-81 | When the pattern matches at position `i` with maximal digit run `s[d..e]`, the attempt at `i` yields the value of `s[d..e]`. |
| AnswerParser.ExtractScoreFirstMatch | interviewer_app.py:79-81 | If the leftmost match is at `i` with digit run `s[d..e]`, the extracted score is the integer value of `s[d..e]`. |
| AnswerParser.ExtractScoreNoMatch | interviewer_app.py:81 | If the pattern matches nowhere, the score is the default 6. |
| AnswerParser.ExtractScoreHasMatch | interviewer_app.py:79-81 | Every extracted score is 6 or the value of a maximal digit run of some match. |
| AnswerParser.ExtractScoreUnbounded | interviewer_app.py:79-81 | There is no upper cap: for every natural number `n`, the reply `label: n` yields `n`. |
| AnswerParser.DelimiterEnd | interviewer_app.py:87 | The delimiter tail `\s*[:\-]?` consumes the longest text it can match. |
| AnswerParser.NextFeedbackLabel | interviewer_app.py:87 | This is the first case-insensitive occurrence of "feedback" at or after a position. If there is none, no later occurrence exists. |
| AnswerParser.PieceEnd | interviewer_app.py:87 | A piece of the split ends at the next occurrence of "feedback", or at the end of the text, with no occurrence inside it. |
| AnswerParser.ExtractFeedbackSegment | interviewer_app.py:87-88 | With the first occurrence at `i`, its delimiter ending at `start` and the next occurrence at `stop` (or the end), the feedback is the stripped text `raw[start..stop]`. |
| AnswerParser.ExtractedFeedbackHasNoLabel | interviewer_app.py:87-88 | When the reply mentions "feedback", the extracted feedback never contains the word. |
| AnswerParser.NoFeedbackIffNoLabel | interviewer_app.py:87-88 | The feedback is "No specific feedback given." exactly when the reply never mentions "feedback", in any letter case. |
| AnswerParser.ScoreDict | interviewer_app.py:89 | The score dictionary has exactly the keys clarity, accuracy and depth, holding the three grades. |
| AnswerParser.ParseEvaluation | interviewer_app.py:83-89 | Each grade is extracted on its own from the same reply with its own label, and the feedback comes from the split. |
| AnswerParser.FollowUpIfNeeded | interviewer_app.py:92-95 | The hint is non-empty exactly when some score value is below 6. A non-empty hint starts with a newline and contains the topic. The empty score map gets no hint. |
| Interviewer.GenerateQuestion | interviewer_app.py:53-59 | Question number `stage + 1` is asked for. The result is the stripped reply, or the model's exception unchanged. |
| Interviewer.EvaluateAnswer | interviewer_app.py:61-90 | The answer and topic are sent for grading. The result is the parse of the stripped reply, or the model's exception unchanged. |
| Interviewer.GetOrCreate | interviewer_app.py:100-108 | An existing session is kept unchanged, topic included. A missing one is added with stage 0, empty histories and not complete. No other entry changes, and aligned histories stay aligned. |
| Interviewer.Current | interviewer_app.py:100-108 | The session a turn works on has the stored topic if the id is known, and the request's topic otherwise. |
| Interviewer.SumGrades | interviewer_app.py:120-122 | The `sum` loop over the recorded grade records returns their total for one metric. |
| Interviewer.AverageScores | interviewer_app.py:119-123 | Each average is the metric's total floor-divided by the constant 5, not by the number of records. |
| Interviewer.Summary | interviewer_app.py:124-132 | The completion summary, built from the three averages, is never empty. |
| Interviewer.RecordAnswer | interviewer_app.py:113-116 | The answer, its grade record and its feedback are each appended at the end of their list. Nothing else changes, and aligned histories stay aligned. |
| Interviewer.Finish | interviewer_app.py:118-136 | The session is marked complete and nothing else changes. The reply has no question, the turn's feedback, a non-empty summary and the averaged score dictionary. |
| Interviewer.AskNext | interviewer_app.py:138-146 | On success the question is appended, the stage becomes the caller's stage plus one, and the reply carries the question, the feedback with the hint and the turn's raw score. On failure the session is kept as given and the reply is the error reply. |
| Interviewer.SessionTurnHistories | interviewer_app.py:112-116 | A turn appends exactly one answer, one grade record and one feedback when the answer is evaluated successfully, and none otherwise. The three histories stay aligned. |
| Interviewer.SessionTurnEvaluationFails | interviewer_app.py:148-151 | A failed evaluation leaves the session unchanged and yields the error reply with the exception's text as summary. |
| Interviewer.SessionTurnCompletes | interviewer_app.py:118-136 | At stage 5 or later the session becomes complete, with stage and questions unchanged, and the reply carries the averages over all grades, this turn's included. |
| Interviewer.SessionTurnAsks | interviewer_app.py:138-146 | Below stage 5, one question is appended and the stage set to the caller's stage plus one. On failure, nothing but the earlier appends changes. The completion flag stays as it was. |
| Interviewer.SessionTurnQuestionReply | interviewer_app.py:110-146 | A question reply carries the turn's raw grades, or none on a first turn, and the feedback plus the hint exactly when a grade is below 6. |
| Interviewer.SessionTurnNoRollback | interviewer_app.py:112-151 | If question generation fails after a graded answer, the answer, grades and feedback stay recorded. The reply is the error reply: no question, complete, empty score. |
| Interviewer.SessionTurnCompletion | interviewer_app.py:118-133 | The stored completion flag is set by the completion branch only and is never cleared. |
| Interviewer.SessionTurnReplyCompletes | interviewer_app.py:134-151 | A reply is complete exactly when it is not a freshly generated question, and a complete reply carries no question. |
| Interviewer.Turn | interviewer_app.py:97-151 | After one call the session exists and keeps its first topic. Only its entry changes, it is the result of the session turn, and aligned stores stay aligned. |
| Interviewer.InterviewService.constructor | interviewer_app.py:51 | The service starts with no sessions. |
| Interviewer.InterviewService.Interview | interviewer_app.py:97-151 | The handler leaves behind the store `Turn` describes and returns the same reply. |
| Interviewer.InterviewService.Complete | interviewer_app.py:118-136 | The completion branch computes the averages with the sum loops, stores the completed session and returns the summary reply, as `Finish` describes. |
| Interviewer.InterviewService.AskQuestion | interviewer_app.py:138-146 | The question branch stores the session with its new question and stage, or unchanged on failure, and returns the reply, as `AskNext` describes. |
| InterviewerProperties.RunKeepsHistoriesAligned | interviewer_app.py:112-116 | After any sequence of calls, every session has as many answers as grade records and feedbacks. |
| InterviewerProperties.RunKeepsTopic | interviewer_app.py:100-108 | Sessions are never removed and the first topic stored for a session is never overwritten. |
| InterviewerProperties.FirstTopicWins | interviewer_app.py:100-108 | For a session created during a run, the topic of the first call that reaches it remains its topic after all later calls. |
| InterviewerProperties.RunKeepsCompletion | interviewer_app.py:133 | Once complete, a session stays complete whatever calls follow. |
| InterviewerProperties.TurnAnswerCount | interviewer_app.py:112-116 | One call adds an answer to a session exactly when it is for that session, has a stage above 0, and is graded. |
| InterviewerProperties.RunAnswerCount | interviewer_app.py:112-116 | After any calls, a session holds one answer per graded call for it. Failed evaluations, first turns and calls for other sessions add none. |
| InterviewerProperties.ScriptedTurn | interviewer_app.py:97-151 | One call of the scripted interview moves its session from the shape after `i` calls to the shape after `i + 1`. |
| InterviewerProperties.ScriptedInterview | interviewer_app.py:97-151 | A fresh session driven through stages 0, 1, ... by a model that never fails has, after `n` calls, stage and question count `min(n, 5)` and `n - 1` answers. It is complete exactly after the sixth call. |
| InterviewerProperties.ScriptedHistory | interviewer_app.py:112-146 | In that interview, question `k` is the one generated by call `k`, and answer `k` is the one submitted by call `k + 1`. |
| InterviewerProperties.ScriptedReply | interviewer_app.py:134-146 | Calls 1 to 5 get the model's stripped question, no summary and no completion. Call 6 gets no question, a summary and completion. |
| InterviewerProperties.StageFollowsCaller | interviewer_app.py:138-140 | The stored stage is the caller's stage plus one, not a count kept by the server: a fresh session answered at stage 3 holds one question and stage 4. |
| InterviewerProperties.CompletedSessionKeepsAsking | interviewer_app.py:138-146 | A completed session asked at an earlier stage still gets a new question and a reply that is not complete. |
| InterviewerProperties.CompletionRepeats | interviewer_app.py:118-136 | Nothing guards against completing twice: the same final request completes again, records the answer again, and reports the averages over all records. |
| InterviewerProperties.TotalOfRepeat | interviewer_app.py:120-122 | The total over `n` equal records is `n` times the grade. |
| InterviewerProperties.SixPerfectAnswersAverageTwelve | interviewer_app.py:119-123 | The divisor is fixed at 5, so six perfect answers average to 12 out of 10. |
| Scenarios.SampleClarity | interviewer_app.py:79-83 | In the sample reply, "Clarity: 7" yields clarity 7. |
| Scenarios.SampleAccuracy | interviewer_app.py:79-84 | In the sample reply, "Accuracy - 9" yields accuracy 9. |
| Scenarios.SampleDepth | interviewer_app.py:79-85 | In the sample reply, "Depth 5", with no separator, yields depth 5. |
| Scenarios.SampleFeedback | interviewer_app.py:87-88 | In the sample reply, the feedback is the trimmed text after "Feedback:", here "Good job". |
| Scenarios.SampleEvaluation | interviewer_app.py:79-90 | The whole sample reply parses to grades 7, 9 and 5 with feedback "Good job". |
| Scenarios.CompletionAverages | interviewer_app.py:118-136 | When the five grade records total 40, 45 and 35, the final reply reports 8, 9 and 7, and the session and the reply are complete. |

## Left out

- The FastAPI application, routing, pydantic validation of requests and replies, and the CORS middleware (interviewer_app.py:13-22, 38-49, 97). They are HTTP plumbing. Requests and replies are plain datatypes.
- `load_dotenv`, the API key, the `ChatGroq` client and the startup warm-up with its timing output (interviewer_app.py:12, 24-36). They are configuration, I/O and timing.
- The prompt templates and `chain.invoke` (interviewer_app.py:54-58, 62-77). They are foreign calls to the language model. They become the `Llm` parameter, a prompt being identified only by what is filled into it. The wording of the prompts is not modelled.
- Interviewer.Summary: only states that the summary is non-empty. Its text is built from the three averages, but the exact Markdown and emoji formatting is not verified.
- Python's Unicode semantics for `\s`, `\d`, `re.IGNORECASE` and `str.strip`. The model restricts them to ASCII.
- CPython's default limit of 4300 digits on conversions between `int` and `str`, beyond which a `ValueError` is raised. The model always converts, in both places where the code converts:
  - `int()` of a longer digit run in `extract_score` (interviewer_app.py:81). In Python this raises inside `evaluate_answer`, so the turn gives the error reply with nothing recorded. The model instead records the grade.
  - `str()` of an average with more than 4300 digits in the summary f-string (interviewer_app.py:124-132). This case needs at least six grades of at most 4300 digits each, so that each one parses, whose total reaches 5·10^4300. An example is six records that each hold a grade of 4300 nines.
- Interviewer.Finish: does not model the second `ValueError` above. It is raised at line 124, before `session["complete"] = True` at line 133. So in Python the answer stays recorded, the session is not marked complete and the reply is the error reply. The model's `Finish` always completes and returns the summary.
- Concurrent requests racing on the shared dictionary, which has no locking. Turns are modelled one after another.
- Interviewer.InterviewService.Interview: the Python handler mutates the session object inside the dictionary in place. Here the session is a value, written back into the dictionary before each return. The final store is the same, but aliasing of the session object is not modelled.
- InterviewerProperties.ScriptedHistory: states the order of the questions and answers only. The order of the grade records and feedbacks follows from Interviewer.SessionTurnHistories but is not restated across calls.
- Exceptions that Python code other than the two model calls could raise. Apart from the two `ValueError` cases above, none can occur in the modelled code paths. In the model, therefore, the error reply arises only from the model's failures.
