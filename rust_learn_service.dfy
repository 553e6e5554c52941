/**
 * RustLearnService: one learner turn. The learner's message is recorded (and its
 * <IS> summary taken) first; the prompt is built from the session as it is then;
 * in role-play mode a question that asks how or when to use the topic, and that
 * carries no summary, gets a development scenario instead of an evaluation; the
 * reply is recorded last. The model is a parameter: a total function from a prompt
 * to a reply text or the message of the error it throws.
 */
module RustLearn {
  import opened Wrappers
  import opened Text
  import opened ConversationTypes
  import opened Session
  import opened ContextManager

  // ---------------------------------------------------------------------------
  // isRolePlayTrigger
  // ---------------------------------------------------------------------------

  const RolePlayTriggers: seq<string> :=
    ["어떻게", "언제", "예시", "실제", "어떻게 사용", "언제 쓰", "실제로", "개발에서", "프로젝트에서", "어떻게 해"]

  /** `keywords.some(k => message.includes(k))` */
  function ContainsAny(message: string, keywords: seq<string>): (r: bool)
    ensures r <==> exists i :: 0 <= i < |keywords| && Occurs(message, keywords[i])
    decreases |keywords|
  {
    if keywords == [] then false
    else
      ContainsIff(message, keywords[0]);
      var rest := ContainsAny(message, keywords[1..]);
      assert forall i :: 1 <= i < |keywords| ==> keywords[i] == keywords[1..][i - 1];
      Contains(message, keywords[0]) || rest
  }

  /** The message asks how, when or where a concept is used in practice. */
  predicate IsRolePlayTrigger(message: string) {
    ContainsAny(message, RolePlayTriggers)
  }

  /**
   * Four of the ten keywords start with a shorter keyword, so the list is
   * equivalent to its six shortest members.
   */
  lemma TriggerKeywords(message: string)
    ensures IsRolePlayTrigger(message) <==>
              Occurs(message, "어떻게") || Occurs(message, "언제") || Occurs(message, "예시")
              || Occurs(message, "실제") || Occurs(message, "개발에서") || Occurs(message, "프로젝트에서")
  {
    var t := RolePlayTriggers;
    assert t[0] == "어떻게" && t[1] == "언제" && t[2] == "예시" && t[3] == "실제" && t[7] == "개발에서" && t[8] == "프로젝트에서";
    assert OccursAt(t[4], t[0], 0) && OccursAt(t[9], t[0], 0) && OccursAt(t[5], t[1], 0) && OccursAt(t[6], t[3], 0);
    TriggerShape(message, t);
  }

  /** The shape of the keyword list: ten keywords, of which the fifth and the tenth extend the first, the sixth the second and the seventh the fourth. */
  lemma TriggerShape(message: string, t: seq<string>)
    requires |t| == 10
    requires OccursAt(t[4], t[0], 0) && OccursAt(t[9], t[0], 0) && OccursAt(t[5], t[1], 0) && OccursAt(t[6], t[3], 0)
    ensures ContainsAny(message, t) <==>
              Occurs(message, t[0]) || Occurs(message, t[1]) || Occurs(message, t[2])
              || Occurs(message, t[3]) || Occurs(message, t[7]) || Occurs(message, t[8])
  {
    if ContainsAny(message, t) {
      var i :| 0 <= i < |t| && Occurs(message, t[i]);
      if i == 4 || i == 9 {
        OccursThroughPrefix(message, t[i], t[0]);
      } else if i == 5 {
        OccursThroughPrefix(message, t[i], t[1]);
      } else if i == 6 {
        OccursThroughPrefix(message, t[i], t[3]);
      }
    }
  }

  /** A message holding a keyword holds every prefix of it. */
  lemma OccursThroughPrefix(message: string, keyword: string, prefix: string)
    requires Occurs(message, keyword) && OccursAt(keyword, prefix, 0)
    ensures Occurs(message, prefix)
  {
    var k :| OccursAt(message, keyword, k);
    OccursWithin(message, keyword, prefix, k, 0);
  }

  // ---------------------------------------------------------------------------
  // generateRolePlayScenario
  // ---------------------------------------------------------------------------

  const ScenarioIntro: string := "당신은 Rust 프로그래밍 튜터입니다.\n\n사용자가 \""
  const ScenarioFormatLines: seq<string> := [
    "\" 개념을 실제로 언제, 어떻게 사용하는지 묻고 있습니다.",
    "",
    "다음 형식으로 생생한 개발 상황 시나리오를 만들어주세요:",
    "",
    "🎬 **상황**: [구체적인 개발 상황 설명]",
    "",
    "👤 **등장인물**:",
    "- [이름] ([역할]): [설명]",
    "- [이름] ([역할]): [설명]",
    "",
    "💬 **대화**:",
    "[등장인물들 간의 자연스러운 대화 - 3-5번의 왕복]",
    "",
    "💻 **코드 예제**:",
    "```rust",
    "// 문제 상황",
    "[코드]",
    "",
    "// 해결 방법",
    "[코드]",
    "```",
    "",
    "🎯 **핵심**: [이 개념이 왜 필요한지, 어떻게 도움이 되는지 한 문장으로]",
    "",
    "반드시 한국어로만 작성하세요."
  ]
  const ScenarioFormat: string := Join(ScenarioFormatLines, "\n")
  const ScenarioRequest: string := "\"를 실제 프로젝트에서 어떻게 사용하는지 개발 시나리오로 보여줘."
  const ScenarioError: string := "역할극 시나리오 생성 중 오류가 발생했습니다. 다시 시도해주세요."

  /** The two messages that ask for a scenario about `topic`; both name it. */
  function ScenarioPrompt(topic: string): (r: seq<QwenMessage>)
    ensures |r| == 2 && r[0].role == System && r[1].role == User
    ensures OccursAt(r[0].content, topic, |ScenarioIntro|) && OccursAt(r[1].content, topic, 1)
  {
    OccursInMiddle(ScenarioIntro, topic, ScenarioFormat);
    OccursInMiddle("\"", topic, ScenarioRequest);
    [QwenMessage(System, ScenarioIntro + topic + ScenarioFormat), QwenMessage(User, "\"" + topic + ScenarioRequest)]
  }

  /** generateRolePlayScenario for a stored session: the model's scenario, or a fixed apology when the call fails. */
  function ScenarioReply(s: ConversationState, qwen: seq<QwenMessage> -> ModelReply): string {
    match qwen(ScenarioPrompt(s.currentTopic))
    case Replied(text) => text
    case Failed(_) => ScenarioError
  }

  // ---------------------------------------------------------------------------
  // The tip
  // ---------------------------------------------------------------------------

  const TipNextTopic: string := "✅ 훌륭합니다! \"다음 주제\"라고 입력하면 다음으로 넘어갑니다."
  const TipAllDone: string := "✅ 모든 주제를 완료했습니다! 마크다운을 다운로드하세요."
  const TipNeedSummary: string := "💡 <IS>태그로 요약해야 다음 단계로 진행됩니다."

  function Tip(hasIS: bool, progress: Option<Progress>): string {
    if !hasIS then TipNeedSummary
    else if progress.Some? && progress.value.currentIndex < progress.value.totalTopics - 1 then TipNextTopic
    else TipAllDone
  }

  /** Without a summary the learner is asked for one; with one, the tip says whether a next topic exists. */
  lemma TipChoice(hasIS: bool, s: ConversationState)
    requires StateValid(s)
    ensures Tip(hasIS, Some(ProgressOf(s))) == TipNeedSummary <==> !hasIS
    ensures Tip(hasIS, Some(ProgressOf(s))) == TipNextTopic <==> hasIS && HasNextTopic(s)
    ensures Tip(hasIS, Some(ProgressOf(s))) == TipAllDone <==> hasIS && !HasNextTopic(s)
  {
    assert TipNeedSummary[0] != TipNextTopic[0] && TipNeedSummary[0] != TipAllDone[0];
    assert TipNextTopic[2] != TipAllDone[2];
  }

  /** The tip announces a next topic exactly when the prompt told the model to send the learner on. */
  lemma TipAgreesWithPrompt(s: ConversationState)
    requires StateValid(s)
    ensures Tip(true, Some(ProgressOf(s))) == TipNextTopic <==> EvaluationCue(s) == NextTopicCue
  {
    TipChoice(true, s);
    EvaluationCueChoice(s);
  }

  // ---------------------------------------------------------------------------
  // chat
  // ---------------------------------------------------------------------------

  /** What chat answers. */
  datatype ChatResponse = ChatResponse(
    response: string,
    hasIS: bool,
    isRolePlayMode: bool,
    tip: string,
    currentStep: nat,
    progress: Option<Progress>)

  /** Whether the turn is answered by a scenario rather than by an evaluation. */
  predicate ScenarioTurn(s: ConversationState, message: string) {
    s.rolePlayMode && IsRolePlayTrigger(message) && MatchIS(message).None?
  }

  /**
   * One chat call on a stored session `s`: its answer (or the error it throws) and
   * the session it leaves. The learner's turn is recorded at `askedAt`, the reply at
   * `answeredAt`.
   */
  function ChatTurn(s: ConversationState, message: string, askedAt: Time, answeredAt: Time,
                    qwen: seq<QwenMessage> -> ModelReply): (Result<ChatResponse, string>, ConversationState)
    requires StateValid(s)
  {
    var hasIS := MatchIS(message).Some?;
    var asked := AfterExtract(s, message, askedAt);
    ExtractEffect(s, message, askedAt);
    var reply := if ScenarioTurn(asked, message) then Replied(ScenarioReply(asked, qwen)) else qwen(Prompt(asked, message));
    match reply
    case Failed(error) => (Err(error), asked)
    case Replied(text) =>
      var answered := AfterSave(asked, text, answeredAt);
      var progress := Some(ProgressOf(answered));
      (Ok(ChatResponse(text, hasIS, asked.rolePlayMode, Tip(hasIS, progress), answered.stepCount, progress)), answered)
  }

  /**
   * A completed turn adds exactly the learner's message and then the reply to the
   * history, counts a step exactly when the message held a summary, reports that
   * count, and never moves the cursor.
   */
  lemma ChatTurnRecords(s: ConversationState, message: string, askedAt: Time, answeredAt: Time,
                        qwen: seq<QwenMessage> -> ModelReply)
    requires StateValid(s) && ChatTurn(s, message, askedAt, answeredAt, qwen).0.Ok?
    ensures var (r, s') := ChatTurn(s, message, askedAt, answeredAt, qwen);
            && s'.conversationHistory == s.conversationHistory + [Message(User, message, askedAt), Message(Assistant, r.value.response, answeredAt)]
            && s'.lastAIResponse == r.value.response
            && s'.stepCount == s.stepCount + (if r.value.hasIS then 1 else 0) == r.value.currentStep
            && r.value.hasIS == MatchIS(message).Some?
            && s'.allTopics == s.allTopics && s'.currentTopicIndex == s.currentTopicIndex
            && s'.topicISHistory == s.topicISHistory && s'.rolePlayMode == s.rolePlayMode
            && r.value.progress == Some(ProgressOf(s))
            && StateValid(s')
  {
    ExtractEffect(s, message, askedAt);
  }

  /**
   * A scenario is produced exactly when role-play is on, the message is a trigger
   * and it holds no summary; that path never fails. Otherwise the reply is the model's
   * answer to the evaluation prompt built after the learner's turn was recorded.
   */
  lemma ChatTurnReply(s: ConversationState, message: string, askedAt: Time, answeredAt: Time,
                      qwen: seq<QwenMessage> -> ModelReply)
    requires StateValid(s)
    ensures var (r, _) := ChatTurn(s, message, askedAt, answeredAt, qwen);
            var asked := AfterExtract(s, message, askedAt);
            && (ScenarioTurn(s, message) ==> r == Ok(r.value) && r.value.response == ScenarioReply(asked, qwen))
            && (!ScenarioTurn(s, message) && qwen(Prompt(asked, message)).Replied? ==>
                  r.Ok? && r.value.response == qwen(Prompt(asked, message)).text)
            && (r.Ok? ==> r.value.isRolePlayMode == s.rolePlayMode)
  {
    ExtractEffect(s, message, askedAt);
  }

  /**
   * When the model fails on the evaluation path the call throws its error; the
   * learner's turn (and summary) stays recorded, and no reply is.
   */
  lemma ChatTurnFailure(s: ConversationState, message: string, askedAt: Time, answeredAt: Time,
                        qwen: seq<QwenMessage> -> ModelReply)
    requires StateValid(s) && ChatTurn(s, message, askedAt, answeredAt, qwen).0.Err?
    ensures var (r, s') := ChatTurn(s, message, askedAt, answeredAt, qwen);
            var asked := AfterExtract(s, message, askedAt);
            && !ScenarioTurn(s, message)
            && qwen(Prompt(asked, message)) == Failed(r.error)
            && s' == asked
            && s'.conversationHistory == s.conversationHistory + [Message(User, message, askedAt)]
  {
    ExtractEffect(s, message, askedAt);
  }

  class RustLearnService {
    const contextManager: ContextManagerService

    constructor(contextManager: ContextManagerService)
      ensures this.contextManager == contextManager
    {
      this.contextManager := contextManager;
    }

    /** The scenario for the learner's current topic; a fixed message for an unknown user. */
    method GenerateRolePlayScenario(userId: string, userMessage: string, qwen: seq<QwenMessage> -> ModelReply)
      returns (response: string)
      requires contextManager.Valid()
      ensures userId !in contextManager.sessions ==> response == SessionNotFound
      ensures userId in contextManager.sessions ==> response == ScenarioReply(contextManager.sessions[userId], qwen)
    {
      var state := contextManager.GetState(userId);
      if state.None? {
        return SessionNotFound;
      }
      var scenarioPrompt := ScenarioPrompt(state.value.currentTopic);
      var reply := qwen(scenarioPrompt);
      match reply
      case Replied(text) => response := text;
      case Failed(_) => response := ScenarioError;
    }

    /** One learner turn; throws for an unknown user (building the prompt does) and when the model fails outside role-play. */
    method Chat(userId: string, message: string, askedAt: Time, answeredAt: Time, qwen: seq<QwenMessage> -> ModelReply)
      returns (result: Result<ChatResponse, string>)
      requires contextManager.Valid()
      modifies contextManager
      ensures contextManager.Valid()
      ensures userId !in old(contextManager.sessions) ==>
                result == Err(SessionNotFoundStartFirst) && contextManager.sessions == old(contextManager.sessions)
      ensures userId in old(contextManager.sessions) ==>
                var (r, s') := ChatTurn(old(contextManager.sessions)[userId], message, askedAt, answeredAt, qwen);
                result == r && contextManager.sessions == old(contextManager.sessions)[userId := s']
    {
      ghost var before := contextManager.sessions;
      var hasIS := contextManager.ExtractAndSaveIS(userId, message, askedAt);
      var state := contextManager.GetState(userId);
      var isRolePlayMode := state.Some? && state.value.rolePlayMode;
      var shouldGenerateScenario := isRolePlayMode && IsRolePlayTrigger(message) && !hasIS;
      var prompt := contextManager.BuildPrompt(userId, message);
      if prompt.Err? {
        return Err(prompt.error);
      }
      ghost var asked := contextManager.sessions[userId];
      assert asked == AfterExtract(before[userId], message, askedAt);
      assert shouldGenerateScenario == ScenarioTurn(asked, message);
      ghost var reply: ModelReply;
      var aiResponse: string;
      if shouldGenerateScenario {
        aiResponse := GenerateRolePlayScenario(userId, message, qwen);
        reply := Replied(aiResponse);
      } else {
        assert prompt.value == Prompt(asked, message);
        var answer := qwen(prompt.value);
        reply := answer;
        if answer.Failed? {
          return Err(answer.message);
        }
        aiResponse := answer.text;
      }
      assert reply == Replied(aiResponse);
      ghost var mid := contextManager.sessions;
      assert mid == before[userId := asked];
      contextManager.SaveAIResponse(userId, aiResponse, answeredAt);
      ghost var answered := AfterSave(asked, aiResponse, answeredAt);
      assert contextManager.sessions == mid[userId := answered];
      UpdateTwice(before, userId, asked, answered);
      var updatedState := contextManager.GetState(userId);
      var progress := contextManager.GetProgress(userId);
      var currentStep := if updatedState.Some? then updatedState.value.stepCount else 0;
      result := Ok(ChatResponse(aiResponse, hasIS, isRolePlayMode, Tip(hasIS, progress), currentStep, progress));
    }
  }
}
