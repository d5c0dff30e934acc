/** The turn controller of the interview service: the session store, one turn
    of `interview`, and the two calls it makes to the language model. */
module Interviewer {
  import opened Wrappers
  import opened Text
  import opened AnswerParser

  /** The stage at which an interview is complete. */
  const StageLimit: nat := 5

  /** The fixed divisor of the averaged scores, whatever the number of records. */
  const AverageDivisor: nat := 5

  const InternalErrorFeedback := "\U{274C} Internal error occurred."

  /** The two prompts sent to the language model. The template wording is not
      modelled, only what is filled into it. */
  datatype Prompt =
    | QuestionPrompt(topic: string, number: int)
    | EvaluationPrompt(answer: string, topic: string)

  /** The language model as seen during one turn: for each prompt, the text of
      its reply or the exception that the call raised. */
  type Llm = Prompt -> Outcome<string>

  /** One entry of `interview_sessions`. */
  datatype Session = Session(
    topic: string,
    stage: int,
    responses: seq<string>,
    scores: seq<ScoreRecord>,
    feedbacks: seq<string>,
    questions: seq<string>,
    complete: bool)

  type Store = map<string, Session>

  datatype Request = Request(sessionId: string, topic: string, stage: int, userResponse: string)

  datatype Response = Response(
    question: string,
    feedback: string,
    summary: string,
    complete: bool,
    score: map<string, nat>)

  /** The record `setdefault` inserts for an unknown session id. */
  function NewSession(topic: string): Session {
    Session(topic, 0, [], [], [], [], false)
  }

  /** One answer, one grade record and one feedback per evaluated turn. */
  predicate HistoriesAligned(s: Session) {
    |s.responses| == |s.scores| == |s.feedbacks|
  }

  ghost predicate StoreAligned(store: Store) {
    forall id :: id in store ==> HistoriesAligned(store[id])
  }

  /** `interview_sessions.setdefault(id, {...})`: an existing session is kept as
      it is (its topic is never overwritten); a missing one is added fresh;
      no other entry changes. */
  function GetOrCreate(store: Store, id: string, topic: string): (out: Store)
    ensures id in out
    ensures id in store ==> out[id] == store[id]
    ensures id !in store ==> out[id] == NewSession(topic) && out[id].stage == 0 && !out[id].complete
                             && out[id].responses == [] && out[id].scores == []
                             && out[id].feedbacks == [] && out[id].questions == []
    ensures forall k :: k != id ==> (k in out <==> k in store) && (k in store ==> out[k] == store[k])
    ensures StoreAligned(store) ==> StoreAligned(out)
  {
    if id in store then store else store[id := NewSession(topic)]
  }

  /** `generate_question(topic, stage)`: asks the model for question number
      `stage + 1` and returns its stripped reply. */
  function GenerateQuestion(llm: Llm, topic: string, stage: int): (r: Outcome<string>)
    ensures r.Raised? <==> llm(QuestionPrompt(topic, stage + 1)).Raised?
    ensures r.Raised? ==> r.message == llm(QuestionPrompt(topic, stage + 1)).message
    ensures r.Ok? ==> r.value == Strip(llm(QuestionPrompt(topic, stage + 1)).value)
    ensures r.Ok? && r.value != [] ==> !IsSpace(r.value[0]) && !IsSpace(r.value[|r.value| - 1])
  {
    match llm(QuestionPrompt(topic, stage + 1))
    case Raised(e) => Raised(e)
    case Ok(text) => Ok(Strip(text))
  }

  /** `evaluate_answer(user_code, topic)`: asks the model to grade the answer
      and parses its stripped reply. */
  function EvaluateAnswer(llm: Llm, userCode: string, topic: string): (r: Outcome<Evaluation>)
    ensures r.Raised? <==> llm(EvaluationPrompt(userCode, topic)).Raised?
    ensures r.Raised? ==> r.message == llm(EvaluationPrompt(userCode, topic)).message
    ensures r.Ok? ==> r.value == ParseEvaluation(Strip(llm(EvaluationPrompt(userCode, topic)).value))
  {
    match llm(EvaluationPrompt(userCode, topic))
    case Raised(e) => Raised(e)
    case Ok(text) => Ok(ParseEvaluation(Strip(text)))
  }

  datatype Metric = Clarity | Accuracy | Depth

  function Grade(r: ScoreRecord, m: Metric): nat {
    match m
    case Clarity => r.clarity
    case Accuracy => r.accuracy
    case Depth => r.depth
  }

  /** `sum(s[m] for s in scores)`. */
  function Total(scores: seq<ScoreRecord>, m: Metric): nat
    decreases |scores|
  {
    if scores == [] then 0 else Total(scores[..|scores| - 1], m) + Grade(scores[|scores| - 1], m)
  }

  /** The averaged grades of the completion branch: each total floor-divided by
      the constant 5, whatever the number of records. */
  function Average(scores: seq<ScoreRecord>): ScoreRecord {
    ScoreRecord(Total(scores, Clarity) / AverageDivisor,
                Total(scores, Accuracy) / AverageDivisor,
                Total(scores, Depth) / AverageDivisor)
  }

  /** The total of every record's grade for `m`, accumulated the way
      Python's `sum` walks the list. */
  method SumGrades(scores: seq<ScoreRecord>, m: Metric) returns (total: nat)
    ensures total == Total(scores, m)
  {
    total := 0;
    for i := 0 to |scores|
      invariant total == Total(scores[..i], m)
    {
      assert scores[..i + 1][..i] == scores[..i];
      total := total + Grade(scores[i], m);
    }
    assert scores[..|scores|] == scores;
  }

  /** `avg_score` of the completion branch. */
  method AverageScores(scores: seq<ScoreRecord>) returns (avg: ScoreRecord)
    ensures avg == Average(scores)
  {
    var clarity := SumGrades(scores, Clarity);
    var accuracy := SumGrades(scores, Accuracy);
    var depth := SumGrades(scores, Depth);
    avg := ScoreRecord(clarity / AverageDivisor, accuracy / AverageDivisor, depth / AverageDivisor);
  }

  /** The completion summary, as a function of the three averages. */
  function Summary(avg: ScoreRecord): (text: string)
    ensures |text| > 0
  {
    "\U{2705} Interview Complete!\n\n**Average Scores**:\n- Clarity: " + NatToDecimal(avg.clarity)
    + "/10\n- Accuracy: " + NatToDecimal(avg.accuracy)
    + "/10\n- Depth: " + NatToDecimal(avg.depth)
    + "/10\n\n**Feedback**:\n"
    + "You demonstrated solid reasoning and communication. To improve, practice edge cases, "
    + "better structuring, and documenting your code."
  }

  /** The reply built by the `except` clause. */
  function ErrorReply(message: string): Response {
    Response("", InternalErrorFeedback, message, true, map[])
  }

  /** The session a turn works on, after the get-or-create step. */
  function Current(store: Store, req: Request): (s: Session)
    ensures s.topic == if req.sessionId in store then store[req.sessionId].topic else req.topic
    ensures StoreAligned(store) ==> HistoriesAligned(s)
  {
    GetOrCreate(store, req.sessionId, req.topic)[req.sessionId]
  }

  /** The turn evaluates the submitted answer. */
  predicate Evaluates(req: Request) {
    req.stage > 0
  }

  /** The turn reaches the question-generation step. */
  predicate Asks(req: Request, llm: Llm) {
    !Evaluates(req) || (EvaluateAnswer(llm, req.userResponse, req.topic).Ok? && req.stage < StageLimit)
  }

  /** Lines 113-116: the graded answer, its grades and its feedback are
      appended to the three histories; nothing else changes. */
  function RecordAnswer(s: Session, answer: string, ev: Evaluation): (s': Session)
    ensures s'.responses == s.responses + [answer]
    ensures s'.scores == s.scores + [ev.score]
    ensures s'.feedbacks == s.feedbacks + [ev.feedback]
    ensures s'.topic == s.topic && s'.stage == s.stage && s'.questions == s.questions
            && s'.complete == s.complete
    ensures HistoriesAligned(s) ==> HistoriesAligned(s')
  {
    s.(responses := s.responses + [answer], scores := s.scores + [ev.score],
       feedbacks := s.feedbacks + [ev.feedback])
  }

  /** The completion branch: the session is marked complete, and the reply
      carries the averages over every recorded grade record. */
  function Finish(s: Session, feedback: string): (out: (Session, Response))
    ensures out.0 == s.(complete := true)
    ensures out.1 == Response("", feedback, Summary(Average(s.scores)), true, ScoreDict(Average(s.scores)))
    ensures out.1.complete && out.1.question == "" && out.1.summary != ""
  {
    var avg := Average(s.scores);
    (s.(complete := true), Response("", feedback, Summary(avg), true, ScoreDict(avg)))
  }

  /** The next-question branch: generate the question for the caller's stage,
      append it, set the stored stage to the caller's plus one, add the hint;
      or, if the model fails, keep the session as it is and reply with the
      error. */
  function AskNext(req: Request, llm: Llm, s: Session, feedback: string,
                   score: map<string, nat>): (out: (Session, Response))
    ensures out.0.topic == s.topic && out.0.responses == s.responses && out.0.scores == s.scores
            && out.0.feedbacks == s.feedbacks && out.0.complete == s.complete
    ensures var q := GenerateQuestion(llm, req.topic, req.stage);
            (q.Raised? ==> out.0 == s && out.1 == ErrorReply(q.message))
            && (q.Ok? ==> out.0.questions == s.questions + [q.value] && out.0.stage == req.stage + 1
                          && out.1 == Response(q.value, feedback + FollowUpIfNeeded(score, req.topic), "", false, score))
    ensures out.1.complete <==> GenerateQuestion(llm, req.topic, req.stage).Raised?
    ensures out.1.complete ==> out.1.question == ""
  {
    match GenerateQuestion(llm, req.topic, req.stage)
    case Raised(e) => (s, ErrorReply(e))
    case Ok(q) =>
      (s.(questions := s.questions + [q], stage := req.stage + 1),
       Response(q, feedback + FollowUpIfNeeded(score, req.topic), "", false, score))
  }

  /** What one call of `interview(req)` does to the session `s0` it works on,
      and the reply; its properties are the `SessionTurn...` lemmas below. */
  function SessionTurn(s0: Session, req: Request, llm: Llm): (Session, Response) {
    if Evaluates(req) then
      match EvaluateAnswer(llm, req.userResponse, req.topic)
      case Raised(e) => (s0, ErrorReply(e))
      case Ok(ev) =>
        var s1 := RecordAnswer(s0, req.userResponse, ev);
        if req.stage >= StageLimit then
          Finish(s1, ev.feedback)
        else
          AskNext(req, llm, s1, ev.feedback, ScoreDict(ev.score))
    else
      AskNext(req, llm, s0, "", map[])
  }

  /** The topic stored with a session is never changed by a turn. */
  lemma SessionTurnKeepsTopic(s0: Session, req: Request, llm: Llm)
    ensures SessionTurn(s0, req, llm).0.topic == s0.topic
  {
  }

  /** The three histories grow together, by one answer exactly when the
      evaluation ran and succeeded; so they stay aligned. */
  lemma SessionTurnHistories(s0: Session, req: Request, llm: Llm)
    ensures var s := SessionTurn(s0, req, llm).0;
            var ev := EvaluateAnswer(llm, req.userResponse, req.topic);
            if Evaluates(req) && ev.Ok? then
              s.responses == s0.responses + [req.userResponse]
              && s.scores == s0.scores + [ev.value.score]
              && s.feedbacks == s0.feedbacks + [ev.value.feedback]
            else
              s.responses == s0.responses && s.scores == s0.scores && s.feedbacks == s0.feedbacks
    ensures HistoriesAligned(s0) ==> HistoriesAligned(SessionTurn(s0, req, llm).0)
  {
  }

  /** A failed evaluation changes nothing and yields the error reply. */
  lemma SessionTurnEvaluationFails(s0: Session, req: Request, llm: Llm)
    requires Evaluates(req) && EvaluateAnswer(llm, req.userResponse, req.topic).Raised?
    ensures SessionTurn(s0, req, llm)
            == (s0, ErrorReply(EvaluateAnswer(llm, req.userResponse, req.topic).message))
  {
  }

  /** Completion: the session becomes complete, stage and questions stay, and
      the reply carries the averages over all recorded grades, this turn's
      included. */
  lemma SessionTurnCompletes(s0: Session, req: Request, llm: Llm)
    requires req.stage >= StageLimit && EvaluateAnswer(llm, req.userResponse, req.topic).Ok?
    ensures var (s, reply) := SessionTurn(s0, req, llm);
            var ev := EvaluateAnswer(llm, req.userResponse, req.topic).value;
            s.complete && s.stage == s0.stage && s.questions == s0.questions
            && s.scores == s0.scores + [ev.score]
            && reply == Response("", ev.feedback, Summary(Average(s.scores)), true,
                                 ScoreDict(Average(s.scores)))
  {
  }

  /** Question generation: one question appended and the stored stage set to
      the caller's plus one, or on failure no question, no stage change and the
      error reply; either way the completion flag stays. */
  lemma SessionTurnAsks(s0: Session, req: Request, llm: Llm)
    requires Asks(req, llm)
    ensures var (s, reply) := SessionTurn(s0, req, llm);
            var q := GenerateQuestion(llm, req.topic, req.stage);
            s.complete == s0.complete
            && (q.Raised? ==> s.questions == s0.questions && s.stage == s0.stage
                              && reply == ErrorReply(q.message))
            && (q.Ok? ==> s.questions == s0.questions + [q.value] && s.stage == req.stage + 1
                          && reply.question == q.value && reply.summary == "" && !reply.complete)
  {
  }

  /** The reply to a new question: the raw grades of this turn (none on the
      first turn), and the feedback with the hint exactly when a grade is below 6. */
  lemma SessionTurnQuestionReply(s0: Session, req: Request, llm: Llm)
    requires Asks(req, llm) && GenerateQuestion(llm, req.topic, req.stage).Ok?
    ensures var reply := SessionTurn(s0, req, llm).1;
            var ev := EvaluateAnswer(llm, req.userResponse, req.topic);
            var score := if Evaluates(req) then ScoreDict(ev.value.score) else map[];
            var feedback := if Evaluates(req) then ev.value.feedback else "";
            reply.score == score && reply.feedback == feedback + FollowUpIfNeeded(score, req.topic)
  {
  }

  /** A failure of question generation after a graded answer rolls nothing
      back: the answer, its grades and its feedback stay recorded, while the
      reply is the error reply. */
  lemma SessionTurnNoRollback(s0: Session, req: Request, llm: Llm)
    requires Asks(req, llm) && Evaluates(req)
    requires GenerateQuestion(llm, req.topic, req.stage).Raised?
    ensures var (s, reply) := SessionTurn(s0, req, llm);
            var ev := EvaluateAnswer(llm, req.userResponse, req.topic).value;
            s == RecordAnswer(s0, req.userResponse, ev)
            && reply == ErrorReply(GenerateQuestion(llm, req.topic, req.stage).message)
            && reply.question == "" && reply.complete && reply.score == map[]
  {
  }

  /** The stored completion flag is set by the completion branch and by
      nothing else, and it is never cleared. */
  lemma SessionTurnCompletion(s0: Session, req: Request, llm: Llm)
    ensures SessionTurn(s0, req, llm).0.complete
            == (s0.complete || (req.stage >= StageLimit
                                && EvaluateAnswer(llm, req.userResponse, req.topic).Ok?))
  {
  }

  /** Every reply that is not a new question closes the interview for the
      caller, and carries no question. */
  lemma SessionTurnReplyCompletes(s0: Session, req: Request, llm: Llm)
    ensures var reply := SessionTurn(s0, req, llm).1;
            (reply.complete <==> !(Asks(req, llm) && GenerateQuestion(llm, req.topic, req.stage).Ok?))
            && (reply.complete ==> reply.question == "")
  {
  }

  /** One call of `interview(req)`: get-or-create the session, then run the
      turn on it; the new store and the reply. */
  function Turn(store: Store, req: Request, llm: Llm): (out: (Store, Response))
    ensures req.sessionId in out.0
    ensures req.sessionId in store ==> out.0[req.sessionId].topic == store[req.sessionId].topic
    ensures req.sessionId !in store ==> out.0[req.sessionId].topic == req.topic
    ensures StoreAligned(store) ==> StoreAligned(out.0)
    ensures (out.0[req.sessionId], out.1) == SessionTurn(Current(store, req), req, llm)
    // Only the entry of the request's session is written.
    ensures forall id :: id != req.sessionId ==>
              (id in out.0 <==> id in store) && (id in store ==> out.0[id] == store[id])
  {
    var created := GetOrCreate(store, req.sessionId, req.topic);
    SessionTurnKeepsTopic(created[req.sessionId], req, llm);
    SessionTurnHistories(created[req.sessionId], req, llm);
    var turn := SessionTurn(created[req.sessionId], req, llm);
    (created[req.sessionId := turn.0], turn.1)
  }

  /** The service: the process-wide `interview_sessions` dictionary and the
      `/interview` handler. */
  class InterviewService {
    var sessions: Store

    constructor ()
      ensures sessions == map[]
    {
      sessions := map[];
    }

    /** One request to `/interview`, handled step by step on the stored
        sessions; what it leaves behind and returns is `Turn`. The Python
        handler mutates the session object that the dictionary holds; here the
        session is a value, written back into the dictionary before each
        return. */
    method Interview(req: Request, llm: Llm) returns (resp: Response)
      modifies this
      ensures (sessions, resp) == Turn(old(sessions), req, llm)
    {
      if req.sessionId !in sessions {
        sessions := sessions[req.sessionId := NewSession(req.topic)];
      }
      assert sessions == GetOrCreate(old(sessions), req.sessionId, req.topic);
      var session := sessions[req.sessionId];
      var feedback, score := "", map[];

      if req.stage > 0 {
        var evaluation := EvaluateAnswer(llm, req.userResponse, req.topic);
        if evaluation.Raised? {
          sessions := sessions[req.sessionId := session];
          return ErrorReply(evaluation.message);
        }
        feedback, score := evaluation.value.feedback, ScoreDict(evaluation.value.score);
        session := RecordAnswer(session, req.userResponse, evaluation.value);

        if req.stage >= StageLimit {
          resp := Complete(req.sessionId, session, feedback);
          return;
        }
      }
      resp := AskQuestion(req, llm, session, feedback, score);
    }

    /** Lines 118-136: average the recorded grades, mark the session complete
        and store it; the reply carries the summary. */
    method Complete(id: string, session: Session, feedback: string) returns (resp: Response)
      modifies this
      ensures (sessions, resp) == (old(sessions)[id := Finish(session, feedback).0], Finish(session, feedback).1)
    {
      var avg := AverageScores(session.scores);
      sessions := sessions[id := session.(complete := true)];
      resp := Response("", feedback, Summary(avg), true, ScoreDict(avg));
    }

    /** Lines 138-146: ask the next question, append it, set the stage, store
        the session and add the hint to the feedback; on a failure of the model
        the session is stored as it is. */
    method AskQuestion(req: Request, llm: Llm, session: Session, feedback: string,
                       score: map<string, nat>) returns (resp: Response)
      modifies this
      ensures (sessions, resp)
              == (old(sessions)[req.sessionId := AskNext(req, llm, session, feedback, score).0],
                  AskNext(req, llm, session, feedback, score).1)
    {
      var next := GenerateQuestion(llm, req.topic, req.stage);
      if next.Raised? {
        sessions := sessions[req.sessionId := session];
        return ErrorReply(next.message);
      }
      var asked := session.(questions := session.questions + [next.value]);
      asked := asked.(stage := req.stage + 1);
      sessions := sessions[req.sessionId := asked];
      resp := Response(next.value, feedback + FollowUpIfNeeded(score, req.topic), "", false, score);
    }
  }
}
