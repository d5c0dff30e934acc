/** Properties of a sequence of `/interview` calls handled one after another
    against the same session store. */
module InterviewerProperties {
  import opened Wrappers
  import opened Text
  import opened AnswerParser
  import opened Interviewer

  /** One call: the request, and how the language model behaves during it. */
  datatype Call = Call(req: Request, llm: Llm)

  /** The store after handling `calls` in order, starting from `store`. */
  function Run(store: Store, calls: seq<Call>): Store
    decreases |calls|
  {
    if calls == [] then store
    else
      var last := calls[|calls| - 1];
      Turn(Run(store, calls[..|calls| - 1]), last.req, last.llm).0
  }

  /** Every session keeps one answer, one grade record and one feedback per
      evaluated turn, whatever the calls and whatever the model does. */
  lemma {:induction false} RunKeepsHistoriesAligned(store: Store, calls: seq<Call>)
    requires StoreAligned(store)
    ensures StoreAligned(Run(store, calls))
    decreases |calls|
  {
    if calls != [] {
      RunKeepsHistoriesAligned(store, calls[..|calls| - 1]);
    }
  }

  /** Sessions are never removed, and the topic of the first call for a
      session stays its topic: later calls with another topic do not
      overwrite it. */
  lemma {:induction false} RunKeepsTopic(store: Store, calls: seq<Call>, id: string)
    requires id in store
    ensures id in Run(store, calls) && Run(store, calls)[id].topic == store[id].topic
    decreases |calls|
  {
    if calls != [] {
      RunKeepsTopic(store, calls[..|calls| - 1], id);
    }
  }

  /** Handling `a` and then `b` is handling `a + b`. */
  lemma {:induction false} RunAppend(store: Store, a: seq<Call>, b: seq<Call>)
    ensures Run(store, a + b) == Run(Run(store, a), b)
    decreases |b|
  {
    if b == [] {
      assert a + b == a;
    } else {
      var b' := b[..|b| - 1];
      assert (a + b)[..|a + b| - 1] == a + b';
      assert (a + b)[|a + b| - 1] == b[|b| - 1];
      RunAppend(store, a, b');
    }
  }

  /** Handling one more call is one more `Turn`. */
  lemma RunSnoc(store: Store, pre: seq<Call>, c: Call)
    ensures Run(store, pre + [c]) == Turn(Run(store, pre), c.req, c.llm).0
  {
    assert (pre + [c])[..|pre|] == pre;
  }

  /** First write wins for a session created during a run: when call `c` is
      the first to reach session `id`, after the calls `pre`, its topic is the
      session's topic after any further calls `rest`. */
  lemma FirstTopicWins(store: Store, pre: seq<Call>, c: Call, rest: seq<Call>, id: string)
    requires c.req.sessionId == id && id !in Run(store, pre)
    ensures id in Run(store, pre + [c] + rest)
    ensures Run(store, pre + [c] + rest)[id].topic == c.req.topic
  {
    RunSnoc(store, pre, c);
    RunKeepsTopic(Run(store, pre + [c]), rest, id);
    RunAppend(store, pre + [c], rest);
  }

  /** Once complete, a session stays complete. */
  lemma {:induction false} RunKeepsCompletion(store: Store, calls: seq<Call>, id: string)
    requires id in store && store[id].complete
    ensures id in Run(store, calls) && Run(store, calls)[id].complete
    decreases |calls|
  {
    if calls != [] {
      var last := calls[|calls| - 1];
      var before := Run(store, calls[..|calls| - 1]);
      RunKeepsCompletion(store, calls[..|calls| - 1], id);
      if last.req.sessionId == id {
        SessionTurnCompletion(Current(before, last.req), last.req, last.llm);
      }
    }
  }

  /** The number of answers stored for `id` (none for an unknown id). */
  function AnswerCount(store: Store, id: string): nat {
    if id in store then |store[id].responses| else 0
  }

  /** The call submits an answer for `id` that the model grades. */
  predicate Answered(c: Call, id: string) {
    c.req.sessionId == id && Evaluates(c.req)
    && EvaluateAnswer(c.llm, c.req.userResponse, c.req.topic).Ok?
  }

  /** How many of `calls` submit an answer for `id` that the model grades. */
  function AnsweredCalls(calls: seq<Call>, id: string): nat
    decreases |calls|
  {
    if calls == [] then 0
    else AnsweredCalls(calls[..|calls| - 1], id) + (if Answered(calls[|calls| - 1], id) then 1 else 0)
  }

  /** One call adds an answer to `id` exactly when it is an answered call for `id`. */
  lemma TurnAnswerCount(store: Store, c: Call, id: string)
    ensures AnswerCount(Turn(store, c.req, c.llm).0, id)
            == AnswerCount(store, id) + (if Answered(c, id) then 1 else 0)
  {
    SessionTurnHistories(Current(store, c.req), c.req, c.llm);
  }

  /** After any calls, a session holds one answer per answered call for it:
      failed evaluations, first turns and calls for other sessions add none. */
  lemma {:induction false} RunAnswerCount(store: Store, calls: seq<Call>, id: string)
    ensures AnswerCount(Run(store, calls), id) == AnswerCount(store, id) + AnsweredCalls(calls, id)
    decreases |calls|
  {
    if calls != [] {
      var last := calls[|calls| - 1];
      RunAnswerCount(store, calls[..|calls| - 1], id);
      TurnAnswerCount(Run(store, calls[..|calls| - 1]), last, id);
    }
  }

  /** Call number `i` of the end-to-end scenario: stage `i` for session `id`
      on `topic`, with a model that answers both prompts of the call. */
  predicate ScriptedCall(c: Call, id: string, topic: string, i: nat) {
    c.req.sessionId == id && c.req.topic == topic && c.req.stage == i
    && c.llm(QuestionPrompt(topic, i + 1)).Ok?
    && c.llm(EvaluationPrompt(c.req.userResponse, topic)).Ok?
  }

  function Min(a: nat, b: nat): nat {
    if a <= b then a else b
  }

  /** The session of the end-to-end scenario after `n > 0` calls: stage `n` and
      `n` questions while `n` is at most 5, one answer per call but the first,
      and complete exactly after the sixth call. */
  predicate ScriptedSession(s: Session, topic: string, n: nat) {
    s.topic == topic
    && s.stage == Min(n, StageLimit)
    && |s.questions| == Min(n, StageLimit)
    && |s.responses| == |s.scores| == |s.feedbacks| == n - 1
    && s.complete == (n == StageLimit + 1)
  }

  /** One call of the scenario moves its session from the shape after `i`
      calls to the shape after `i + 1`. */
  lemma ScriptedTurn(before: Store, c: Call, id: string, topic: string, i: nat)
    requires i <= StageLimit && ScriptedCall(c, id, topic, i)
    requires i == 0 ==> id !in before
    requires i > 0 ==> id in before && ScriptedSession(before[id], topic, i)
    ensures id in Turn(before, c.req, c.llm).0
    ensures ScriptedSession(Turn(before, c.req, c.llm).0[id], topic, i + 1)
  {
    var s0 := Current(before, c.req);
    SessionTurnHistories(s0, c.req, c.llm);
    SessionTurnCompletion(s0, c.req, c.llm);
    if i < StageLimit {
      SessionTurnAsks(s0, c.req, c.llm);
    } else {
      SessionTurnCompletes(s0, c.req, c.llm);
    }
  }

  /** The end-to-end scenario: a fresh session driven through stages 0, 1, ...
      by a model that never fails has, after `n` calls, the shape
      `ScriptedSession` describes. */
  lemma {:induction false} ScriptedInterview(store: Store, calls: seq<Call>, id: string, topic: string)
    requires id !in store
    requires |calls| <= StageLimit + 1
    requires forall i :: 0 <= i < |calls| ==> ScriptedCall(calls[i], id, topic, i)
    ensures calls == [] ==> id !in Run(store, calls)
    ensures calls != [] ==> id in Run(store, calls)
                            && ScriptedSession(Run(store, calls)[id], topic, |calls|)
    decreases |calls|
  {
    if calls != [] {
      var n := |calls| - 1;
      var prefix := calls[..n];
      assert forall i :: 0 <= i < |prefix| ==> prefix[i] == calls[i];
      ScriptedInterview(store, prefix, id, topic);
      ScriptedTurn(Run(store, prefix), calls[n], id, topic, n);
    }
  }

  /** The question a call generates (none when the model fails). */
  function Question(c: Call): string {
    match GenerateQuestion(c.llm, c.req.topic, c.req.stage)
    case Ok(q) => q
    case Raised(_) => ""
  }

  /** Question `k` of `s` was generated by call `k`, and answer `k` was
      submitted by call `k + 1`. */
  predicate ScriptedContents(s: Session, calls: seq<Call>) {
    |s.questions| <= |calls| && |s.responses| < |calls| && |s.scores| == |s.responses|
    && (forall k :: 0 <= k < |s.questions| ==> s.questions[k] == Question(calls[k]))
    && (forall k :: 0 <= k < |s.responses| ==> s.responses[k] == calls[k + 1].req.userResponse)
  }

  /** One call of the scenario extends the contents by its own question and,
      after the first call, its own answer and grades. */
  lemma ScriptedContentsTurn(s0: Session, calls: seq<Call>, topic: string, n: nat)
    requires n == |calls| - 1 && n <= StageLimit
    requires ScriptedCall(calls[n], calls[n].req.sessionId, topic, n)
    requires n == 0 ==> s0 == NewSession(topic)
    requires n > 0 ==> ScriptedSession(s0, topic, n) && ScriptedContents(s0, calls[..n])
    ensures ScriptedContents(SessionTurn(s0, calls[n].req, calls[n].llm).0, calls)
  {
    var c := calls[n];
    var s := SessionTurn(s0, c.req, c.llm).0;
    SessionTurnHistories(s0, c.req, c.llm);
    if n == 0 {
      SessionTurnAsks(s0, c.req, c.llm);
      assert s.questions == [Question(c)] && s.responses == [] && s.scores == [];
    } else {
      if n < StageLimit {
        SessionTurnAsks(s0, c.req, c.llm);
        assert s.questions == s0.questions + [Question(c)];
      } else {
        SessionTurnCompletes(s0, c.req, c.llm);
      }
      ExtendContents(s0, s, calls, n);
    }
  }

  /** The list part of `ScriptedContentsTurn`: appending call `n`'s question
      (if any) and answer keeps the contents in call order. */
  lemma ExtendContents(s0: Session, s: Session, calls: seq<Call>, n: nat)
    requires 0 < n == |calls| - 1
    requires ScriptedContents(s0, calls[..n]) && |s0.responses| == n - 1
    requires (|s0.questions| == n && s.questions == s0.questions + [Question(calls[n])])
             || s.questions == s0.questions
    requires s.responses == s0.responses + [calls[n].req.userResponse]
    requires |s.scores| == |s.responses|
    ensures ScriptedContents(s, calls)
  {
    forall k | 0 <= k < |s.questions|
      ensures s.questions[k] == Question(calls[k])
    {
      if k < |s0.questions| {
        assert s.questions[k] == s0.questions[k] && calls[k] == calls[..n][k];
      }
    }
    forall k | 0 <= k < |s.responses|
      ensures s.responses[k] == calls[k + 1].req.userResponse
    {
      if k < n - 1 {
        assert s.responses[k] == s0.responses[k] && calls[k + 1] == calls[..n][k + 1];
      }
    }
  }

  /** What the scenario's session holds, in call order: each call's question
      while the interview runs, and each later call's answer and grades. */
  lemma {:induction false} ScriptedHistory(store: Store, calls: seq<Call>, id: string, topic: string)
    requires id !in store
    requires 0 < |calls| <= StageLimit + 1
    requires forall i :: 0 <= i < |calls| ==> ScriptedCall(calls[i], id, topic, i)
    ensures id in Run(store, calls)
    ensures ScriptedContents(Run(store, calls)[id], calls)
    decreases |calls|
  {
    var n := |calls| - 1;
    var prefix := calls[..n];
    assert forall i :: 0 <= i < |prefix| ==> prefix[i] == calls[i];
    ScriptedInterview(store, prefix, id, topic);
    var before := Run(store, prefix);
    var last := calls[n];
    var s0 := Current(before, last.req);
    if n > 0 {
      ScriptedHistory(store, prefix, id, topic);
      assert s0 == before[id];
    } else {
      assert s0 == NewSession(topic);
    }
    ScriptedContentsTurn(s0, calls, topic, n);
    assert Run(store, calls)[id] == SessionTurn(s0, last.req, last.llm).0;
  }

  /** The replies of the end-to-end scenario: each of the first five calls
      gets the stripped question of the model and no summary and does not
      complete; the sixth gets no question, a summary and completes. */
  lemma ScriptedReply(store: Store, c: Call, id: string, topic: string, i: nat)
    requires i <= StageLimit && ScriptedCall(c, id, topic, i)
    ensures var reply := Turn(store, c.req, c.llm).1;
            if i < StageLimit then
              !reply.complete && reply.summary == ""
              && reply.question == Strip(c.llm(QuestionPrompt(topic, i + 1)).value)
            else
              reply.complete && reply.question == "" && reply.summary != ""
  {
    var s0 := Current(store, c.req);
    if i < StageLimit {
      SessionTurnAsks(s0, c.req, c.llm);
    } else {
      SessionTurnCompletes(s0, c.req, c.llm);
    }
  }

  /** The stored stage is whatever the caller sent plus one, not a count kept by
      the server: a fresh session answered at stage 3 holds one question and
      stage 4. */
  lemma StageFollowsCaller(store: Store, req: Request, llm: Llm)
    requires req.sessionId !in store && 0 < req.stage < StageLimit
    requires llm(EvaluationPrompt(req.userResponse, req.topic)).Ok?
    requires llm(QuestionPrompt(req.topic, req.stage + 1)).Ok?
    ensures var s := Turn(store, req, llm).0[req.sessionId];
            s.stage == req.stage + 1 && |s.questions| == 1 && |s.responses| == 1
            && s.stage != |s.questions|
  {
    SessionTurnAsks(Current(store, req), req, llm);
    SessionTurnHistories(Current(store, req), req, llm);
  }

  /** Completion does not close a session for good: a completed session asked
      at an earlier stage generates a new question and a non-completing reply. */
  lemma CompletedSessionKeepsAsking(store: Store, req: Request, llm: Llm)
    requires req.sessionId in store && store[req.sessionId].complete
    requires Asks(req, llm) && GenerateQuestion(llm, req.topic, req.stage).Ok?
    ensures var (after, reply) := Turn(store, req, llm);
            !reply.complete && reply.question == GenerateQuestion(llm, req.topic, req.stage).value
            && after[req.sessionId].complete
  {
    SessionTurnAsks(Current(store, req), req, llm);
  }

  /** Nothing guards against re-triggering completion: the same final request
      sent twice completes twice, and the second time the answer is recorded
      again and counted in the averages. */
  lemma CompletionRepeats(store: Store, req: Request, llm: Llm)
    requires req.stage >= StageLimit
    requires EvaluateAnswer(llm, req.userResponse, req.topic).Ok?
    ensures var (first, r1) := Turn(store, req, llm);
            var (second, r2) := Turn(first, req, llm);
            r1.complete && r2.complete && r2.question == "" && r2.summary != ""
            && second[req.sessionId].complete
            && |second[req.sessionId].scores| == |first[req.sessionId].scores| + 1
            && r2.score == ScoreDict(Average(second[req.sessionId].scores))
  {
    var (first, r1) := Turn(store, req, llm);
    SessionTurnCompletes(Current(store, req), req, llm);
    SessionTurnCompletes(Current(first, req), req, llm);
  }

  /** `n` copies of one grade record. */
  function Repeat(r: ScoreRecord, n: nat): (rs: seq<ScoreRecord>)
    ensures |rs| == n
  {
    if n == 0 then [] else Repeat(r, n - 1) + [r]
  }

  /** The total of `n` equal records is `n` times the grade. */
  lemma {:induction false} TotalOfRepeat(r: ScoreRecord, m: Metric, n: nat)
    ensures Total(Repeat(r, n), m) == n * Grade(r, m)
  {
    if n > 0 {
      var rs := Repeat(r, n);
      assert rs[..n - 1] == Repeat(r, n - 1);
      TotalOfRepeat(r, m, n - 1);
    }
  }

  /** Because the divisor is fixed at 5 rather than the number of records,
      six perfect answers average to 12 out of 10. */
  lemma SixPerfectAnswersAverageTwelve()
    ensures Average(Repeat(ScoreRecord(10, 10, 10), 6)) == ScoreRecord(12, 12, 12)
  {
    TotalOfRepeat(ScoreRecord(10, 10, 10), Clarity, 6);
    TotalOfRepeat(ScoreRecord(10, 10, 10), Accuracy, 6);
    TotalOfRepeat(ScoreRecord(10, 10, 10), Depth, 6);
  }
}
