/**
 * RustLearnController: the HTTP handlers around the services. What is modelled is
 * what each handler decides and answers: how a start request's topics are read, the
 * fallback text when the model cannot explain a topic, when a move to the next topic
 * counts as a success, the explanation of a topic transition, the role-play
 * messages, and the name of an exported note.
 */
module Controller {
  import opened Wrappers
  import opened Text
  import opened ConversationTypes
  import opened Session
  import opened ContextManager
  import StudyNotes

  // ---------------------------------------------------------------------------
  // The export file name
  // ---------------------------------------------------------------------------

  /** What `/[^a-zA-Z0-9-_]/` does not match. */
  predicate IsNameChar(c: char) {
    ('a' <= c <= 'z') || ('A' <= c <= 'Z') || ('0' <= c <= '9') || c == '-' || c == '_'
  }

  /** A character a sanitised name may hold: `[a-z0-9_-]`. */
  predicate IsSafeChar(c: char) {
    ('a' <= c <= 'z') || ('0' <= c <= '9') || c == '-' || c == '_'
  }

  predicate AllNameChars(s: string) {
    forall i :: 0 <= i < |s| ==> IsNameChar(s[i])
  }

  predicate AllSafeChars(s: string) {
    forall i :: 0 <= i < |s| ==> IsSafeChar(s[i])
  }

  /** No two '-' in a row. */
  predicate NoDoubleDash(s: string) {
    forall i :: 0 <= i < |s| - 1 ==> !(s[i] == '-' && s[i + 1] == '-')
  }

  /** `s.replace(/[^a-zA-Z0-9-_]/g, '-')` */
  function ReplaceDisallowed(s: string): (r: string)
    ensures |r| == |s|
    ensures forall i :: 0 <= i < |s| ==> r[i] == if IsNameChar(s[i]) then s[i] else '-'
    ensures AllNameChars(r)
    ensures AllNameChars(s) ==> r == s
  {
    seq(|s|, i requires 0 <= i < |s| => if IsNameChar(s[i]) then s[i] else '-')
  }

  /** `s.replace(/-+/g, '-')`: every run of '-' becomes one. */
  function CollapseDashes(s: string): (r: string)
    ensures |r| <= |s|
    ensures |s| > 0 ==> |r| > 0 && r[0] == s[0]
    ensures AllNameChars(s) ==> AllNameChars(r)
    ensures NoDoubleDash(r)
    ensures NoDoubleDash(s) ==> r == s
    decreases |s|
  {
    if |s| <= 1 then s
    else if s[0] == '-' && s[1] == '-' then CollapseDashes(s[1..])
    else
      var rest := CollapseDashes(s[1..]);
      assert forall i :: 1 <= i < |rest| + 1 ==> ([s[0]] + rest)[i] == rest[i - 1];
      [s[0]] + rest
  }

  /** Lower-casing a name made of `[a-zA-Z0-9_-]` leaves only `[a-z0-9_-]`, and keeps every '-' where it was. */
  lemma LowerNameChars(s: string)
    requires AllNameChars(s)
    ensures AllSafeChars(LowerAscii(s))
    ensures NoDoubleDash(s) ==> NoDoubleDash(LowerAscii(s))
  {
    var r := LowerAscii(s);
    forall i | 0 <= i < |r|
      ensures IsSafeChar(r[i]) && (r[i] == '-' <==> s[i] == '-')
    {
      assert IsNameChar(s[i]);
    }
  }

  /** Lower-casing changes nothing where there is no capital letter. */
  lemma LowerSafeChars(s: string)
    requires AllSafeChars(s)
    ensures LowerAscii(s) == s
  {
    assert forall i :: 0 <= i < |s| ==> !('A' <= s[i] <= 'Z');
  }

  const DefaultName: string := "rust-study"

  /** `(topic || 'rust-study').replace(/[^a-zA-Z0-9-_]/g, '-').replace(/-+/g, '-').toLowerCase()` */
  function SanitizeTopic(topic: string): string {
    LowerAscii(CollapseDashes(ReplaceDisallowed(if topic == "" then DefaultName else topic)))
  }

  /** The fallback name is already sanitised. */
  lemma SanitizeDefault()
    ensures SanitizeTopic("") == DefaultName
  {
    assert AllSafeChars(DefaultName) by {
      forall i | 0 <= i < |DefaultName|
        ensures IsSafeChar(DefaultName[i])
      {
        assert DefaultName[i] in "rust-study";
      }
    }
    assert NoDoubleDash(DefaultName) by {
      forall i | 0 <= i < |DefaultName| - 1
        ensures !(DefaultName[i] == '-' && DefaultName[i + 1] == '-')
      {
        if i != 4 {
          assert DefaultName[i] != '-';
        }
      }
    }
    SafeNameFixed(DefaultName);
  }

  /** A name made of `[a-z0-9_-]` without "--" comes through the three rewrites unchanged. */
  lemma SafeNameFixed(r: string)
    requires AllSafeChars(r) && NoDoubleDash(r)
    ensures LowerAscii(CollapseDashes(ReplaceDisallowed(r))) == r
  {
    assert AllNameChars(r);
    assert ReplaceDisallowed(r) == r;
    assert CollapseDashes(r) == r;
    LowerSafeChars(r);
  }

  /**
   * A sanitised name is non-empty, made only of `[a-z0-9_-]`, holds no "--", is
   * never longer than the topic, and is "rust-study" for an empty topic.
   */
  lemma SanitizeShape(topic: string)
    ensures var r := SanitizeTopic(topic);
            && |r| > 0
            && AllSafeChars(r)
            && NoDoubleDash(r)
            && (topic != "" ==> |r| <= |topic|)
            && (topic == "" ==> r == DefaultName)
  {
    var named := ReplaceDisallowed(if topic == "" then DefaultName else topic);
    LowerNameChars(CollapseDashes(named));
    if topic == "" {
      SanitizeDefault();
    }
  }

  /** Sanitising a sanitised name changes nothing. */
  lemma SanitizeIdempotent(topic: string)
    ensures SanitizeTopic(SanitizeTopic(topic)) == SanitizeTopic(topic)
  {
    SanitizeShape(topic);
    SafeNameFixed(SanitizeTopic(topic));
  }

  /** `rust-study-${sanitizedTopic}-${Date.now()}.md`, with the clock reading as a parameter. */
  function ExportFilename(topic: string, now: nat): string {
    "rust-study-" + SanitizeTopic(topic) + "-" + NatToString(now) + ".md"
  }

  /** What a file name holds: `[a-z0-9_.-]`. */
  predicate AllFileChars(s: string) {
    forall i :: 0 <= i < |s| ==> IsSafeChar(s[i]) || s[i] == '.'
  }

  lemma FileCharsAppend(a: string, b: string)
    requires AllFileChars(a) && AllFileChars(b)
    ensures AllFileChars(a + b)
  {
    forall i | 0 <= i < |a + b|
      ensures IsSafeChar((a + b)[i]) || (a + b)[i] == '.'
    {
      if i >= |a| {
        assert (a + b)[i] == b[i - |a|];
      }
    }
  }

  /** The name of an export is fixed text around the sanitised topic and the clock reading. */
  lemma ExportFilenameFrame(topic: string, now: nat)
    ensures var f := ExportFilename(topic, now);
            && StartsWith(f, "rust-study-" + SanitizeTopic(topic) + "-")
            && OccursAt(f, ".md", |f| - 3)
  {
    var head := "rust-study-" + SanitizeTopic(topic) + "-";
    var n := NatToString(now);
    AppendAssoc(head, n, ".md");
    StartsWithAppend(head, n + ".md");
    OccursAsSuffix(head + n, ".md");
  }

  /** An export's name holds only `[a-z0-9_.-]`, so it needs no quoting in a header. */
  lemma ExportFilenameChars(topic: string, now: nat)
    ensures AllFileChars(ExportFilename(topic, now))
  {
    var t := SanitizeTopic(topic);
    var n := NatToString(now);
    SanitizedFileChars(topic);
    FixedFileChars();
    DigitFileChars(now);
    FileCharsAppend("rust-study-", t);
    FileCharsAppend("rust-study-" + t, "-");
    FileCharsAppend("rust-study-" + t + "-", n);
    FileCharsAppend("rust-study-" + t + "-" + n, ".md");
  }

  lemma SanitizedFileChars(topic: string)
    ensures AllFileChars(SanitizeTopic(topic))
  {
    SanitizeShape(topic);
  }

  lemma FixedFileChars()
    ensures AllFileChars("rust-study-") && AllFileChars("-") && AllFileChars(".md")
  {
    assert AllFileChars("rust-study-") by {
      forall i | 0 <= i < 11
        ensures IsSafeChar("rust-study-"[i])
      {
        assert "rust-study-"[i] in "rust-study-";
      }
    }
  }

  lemma DigitFileChars(n: nat)
    ensures AllFileChars(NatToString(n))
  {
  }

  // ---------------------------------------------------------------------------
  // generateTopicTransitionExplanation
  // ---------------------------------------------------------------------------

  const OptionType: string := "Option 타입"
  const ResultType: string := "Result 타입"
  const QuestionOperator: string := "? 연산자"
  const ErrorHandling: string := "에러 처리"

  const OptionToResult: string := "✅ Option은 값의 **유무**만 표현합니다.\n✅ Result는 **성공/실패 상태**와 **에러 정보**를 모두 표현합니다.\n\n→ Option보다 더 상세한 에러 처리가 필요할 때 Result를 사용하세요!"
  const OptionToQuestion: string := "✅ Option과 Result를 매번 match로 처리하면 코드가 길어집니다.\n✅ ? 연산자는 Error/None을 자동으로 전파합니다.\n\n→ 함수 내에서 Option/Result를 간결하게 처리할 수 있어요!"
  const ResultToQuestion: string := "✅ Result는 Ok(T)와 Err(E)를 명확히 구분합니다.\n✅ ? 연산자는 Err를 자동으로 함수 외부로 전파합니다.\n\n→ 에러 처리를 더 효율적으로 할 수 있어요!"
  const ResultToErrors: string := "✅ Result는 성공/실패를 타입으로 표현합니다.\n✅ 에러 처리는 Result를 활용한 고급 패턴입니다.\n\n→ 복잡한 에러 시나리오를 우아하게 처리하세요!"

  /** The hand-written explanations, by previous topic and then by next topic. */
  const Transitions: map<string, map<string, string>> := map[
    OptionType := map[ResultType := OptionToResult, QuestionOperator := OptionToQuestion],
    ResultType := map[QuestionOperator := ResultToQuestion, ErrorHandling := ResultToErrors]
  ]

  /** The explanation for a pair the table does not know. */
  function GenericTransition(previousTopic: string, nextTopic: string): string {
    "✅ \"" + previousTopic + "\"에서 배운 개념을 바탕으로\n✅ \"" + nextTopic + "\"을 학습합니다.\n\n→ 주제들 간의 연결고리를 찾으며 학습하세요!"
  }

  /** `transitions[previousTopic]?.[nextTopic] || generic` */
  function TransitionExplanation(previousTopic: string, nextTopic: string): string {
    if previousTopic in Transitions && nextTopic in Transitions[previousTopic] && Transitions[previousTopic][nextTopic] != ""
    then Transitions[previousTopic][nextTopic]
    else GenericTransition(previousTopic, nextTopic)
  }

  /** The four pairs the table knows. */
  predicate KnownTransition(previousTopic: string, nextTopic: string) {
    || (previousTopic == OptionType && nextTopic == ResultType)
    || (previousTopic == OptionType && nextTopic == QuestionOperator)
    || (previousTopic == ResultType && nextTopic == QuestionOperator)
    || (previousTopic == ResultType && nextTopic == ErrorHandling)
  }

  /** The table answers for exactly its four pairs; each of them has its own hand-written text. */
  lemma TransitionKnown(previousTopic: string, nextTopic: string)
    ensures KnownTransition(previousTopic, nextTopic) <==>
              previousTopic in Transitions && nextTopic in Transitions[previousTopic]
    ensures previousTopic == OptionType && nextTopic == ResultType ==> TransitionExplanation(previousTopic, nextTopic) == OptionToResult
    ensures previousTopic == OptionType && nextTopic == QuestionOperator ==> TransitionExplanation(previousTopic, nextTopic) == OptionToQuestion
    ensures previousTopic == ResultType && nextTopic == QuestionOperator ==> TransitionExplanation(previousTopic, nextTopic) == ResultToQuestion
    ensures previousTopic == ResultType && nextTopic == ErrorHandling ==> TransitionExplanation(previousTopic, nextTopic) == ResultToErrors
  {
    assert OptionType[0] != ResultType[0];
    assert ResultType[0] != QuestionOperator[0] && QuestionOperator[0] != ErrorHandling[0] && ResultType[0] != ErrorHandling[0];
  }

  /** Any other pair gets the generic text, which names both topics, the previous one first. */
  lemma TransitionFallback(previousTopic: string, nextTopic: string)
    requires !KnownTransition(previousTopic, nextTopic)
    ensures TransitionExplanation(previousTopic, nextTopic) == GenericTransition(previousTopic, nextTopic)
    ensures OccursAt(GenericTransition(previousTopic, nextTopic), previousTopic, 3)
    ensures OccursAt(GenericTransition(previousTopic, nextTopic), nextTopic, 3 + |previousTopic| + |"\"에서 배운 개념을 바탕으로\n✅ \""|)
  {
    assert TransitionExplanation(previousTopic, nextTopic) == GenericTransition(previousTopic, nextTopic) by {
      TransitionKnown(previousTopic, nextTopic);
    }
    var head := "✅ \"";
    var mid := "\"에서 배운 개념을 바탕으로\n✅ \"";
    var tail := "\"을 학습합니다.\n\n→ 주제들 간의 연결고리를 찾으며 학습하세요!";
    assert GenericTransition(previousTopic, nextTopic) == head + previousTopic + mid + nextTopic + tail;
    NamesBetween(head, previousTopic, mid, nextTopic, tail);
  }

  /** Two names written between fixed pieces of text occur where they were put. */
  lemma NamesBetween(head: string, a: string, mid: string, b: string, tail: string)
    ensures OccursAt(head + a + mid + b + tail, a, |head|)
    ensures OccursAt(head + a + mid + b + tail, b, |head| + |a| + |mid|)
  {
    var g := head + a + mid + b + tail;
    assert g[|head|..|head| + |a|] == a;
    assert g[|head| + |a| + |mid|..|head| + |a| + |mid| + |b|] == b;
  }

  // ---------------------------------------------------------------------------
  // The handlers' answers
  // ---------------------------------------------------------------------------

  const Instruction: string := "AI의 설명을 읽고 배운 내용을 <IS>요약</IS> 형식으로 작성해주세요."
  const StartFallback: string := "설명을 생성하는 중 오류가 발생했습니다. AI에게 직접 물어봐주세요."
  const NextFallback: string := "새로운 주제의 설명을 생성하는 중 오류가 발생했습니다."
  const CompletionMessage: string := "🎉 모든 주제를 완료했습니다!\n\n지금까지 배운 모든 개념이 서로 연결되어 있습니다.\n마크다운 파일을 다운로드하여 학습 기록을 확인하세요!"
  const RolePlayOn: string := "🎭 역할극 모드가 활성화되었습니다!"
  const RolePlayOff: string := "📚 일반 모드로 전환되었습니다."

  /** The greeting of startLearning: all topics in order joined by arrows, or the single one. */
  function StartMessage(topics: seq<string>): string
    requires |topics| > 0
  {
    if |topics| > 1 then "\"" + Join(topics, " \U{2192} ") + "\" 순서로 학습을 시작합니다!"
    else "\"" + topics[0] + "\" 학습을 시작합니다!"
  }

  /** Whichever form it takes, the greeting names every topic of the plan. */
  lemma StartMessageNamesTopics(topics: seq<string>, i: nat)
    requires i < |topics|
    ensures Occurs(StartMessage(topics), topics[i])
  {
    if |topics| > 1 {
      var joined := Join(topics, " \U{2192} ");
      JoinOccurs(topics, " \U{2192} ", i);
      var k :| OccursAt(joined, topics[i], k);
      OccursInConcat("\"", joined, "\" 순서로 학습을 시작합니다!", topics[i], k);
    } else {
      OccursInMiddle("\"", topics[0], "\" 학습을 시작합니다!");
    }
  }

  /** The explanation shown for a model reply: its text, or the fallback when the call failed. */
  function Explanation(reply: ModelReply, fallback: string): string {
    match reply
    case Replied(text) => text
    case Failed(_) => fallback
  }

  /** A successful explanation is saved as a reply; a failed one leaves the session as it was. */
  function AfterExplanation(s: ConversationState, reply: ModelReply, at: Time): ConversationState {
    match reply
    case Replied(text) => AfterSave(s, text, at)
    case Failed(_) => s
  }

  /** The message of a successful move from one topic to the next. */
  function MoveMessage(previousTopic: string, nextTopic: string): string {
    "✨ \"" + previousTopic + "\" \U{2192} \"" + nextTopic + "\" 주제로 이동합니다!\n\n📌 **주의사항**:\n\""
    + previousTopic + "\"에서 배운 개념이 \"" + nextTopic + "\"의 기초가 됩니다.\n이전 내용을 참고하며 새로운 주제를 학습하세요."
  }

  datatype StartResponse = StartResponse(
    success: bool,
    message: string,
    instruction: string,
    explanation: string,
    isMultiObjective: bool,
    totalTopics: nat,
    userId: string)

  /** `success: true` with the new topic's explanation, or `success: false` with the completion message. */
  datatype NextTopicResponse =
    | Moved(message: string, explanation: string, transitionTip: string, reached: Progress)
    | Finished(message: string, progress: Option<Progress>)

  datatype ToggleResponse = ToggleResponse(success: bool, rolePlayMode: bool, message: string)

  class RustLearnController {
    const contextManager: ContextManagerService

    constructor(contextManager: ContextManagerService)
      ensures this.contextManager == contextManager
    {
      this.contextManager := contextManager;
    }

    /**
     * Asks the model to explain the current topic of a known session and saves a
     * successful answer; a failed call gives the fallback text and saves nothing.
     */
    method Explain(userId: string, fallback: string, at: Time, qwen: seq<QwenMessage> -> ModelReply)
      returns (explanation: string)
      requires contextManager.Valid() && userId in contextManager.sessions
      modifies contextManager
      ensures contextManager.Valid()
      ensures var s := old(contextManager.sessions)[userId];
              var reply := qwen(InitialTopicPrompt(s));
              && explanation == Explanation(reply, fallback)
              && contextManager.sessions == old(contextManager.sessions)[userId := AfterExplanation(s, reply, at)]
    {
      var initialPrompt := contextManager.BuildInitialTopicPrompt(userId);
      if initialPrompt.Err? {
        assert false;
        return fallback;
      }
      var reply := qwen(initialPrompt.value);
      match reply
      case Replied(text) =>
        explanation := text;
        contextManager.SaveAIResponse(userId, explanation, at);
      case Failed(_) =>
        explanation := fallback;
    }

    /**
     * Starts a session on the requested topics and asks the model to explain the
     * first one; a failed call is answered with a fixed text and saves nothing. It
     * always reports success.
     */
    method StartLearning(userId: string, topics: Topics, at: Time, qwen: seq<QwenMessage> -> ModelReply)
      returns (response: StartResponse)
      requires contextManager.Valid() && |TopicArray(topics)| > 0
      modifies contextManager
      ensures contextManager.Valid()
      ensures var topicsArray := TopicArray(topics);
              var reply := qwen(InitialTopicPrompt(InitialState(topicsArray)));
              && response == StartResponse(true, StartMessage(topicsArray), Instruction, Explanation(reply, StartFallback),
                                           |topicsArray| > 1, |topicsArray|, userId)
              && contextManager.sessions == old(contextManager.sessions)[userId := AfterExplanation(InitialState(topicsArray), reply, at)]
    {
      ghost var before := contextManager.sessions;
      var topicsArray := TopicArray(topics);
      var isMultiObjective := |topicsArray| > 1;
      contextManager.InitSession(userId, topics);
      ghost var started := InitialState(topicsArray);
      var explanation := Explain(userId, StartFallback, at, qwen);
      UpdateTwice(before, userId, started, AfterExplanation(started, qwen(InitialTopicPrompt(started)), at));
      response := StartResponse(true, StartMessage(topicsArray), Instruction, explanation, isMultiObjective, |topicsArray|, userId);
    }

    /**
     * Leaves the current topic. When a later topic exists the model is asked to
     * explain it and the answer names both topics; otherwise the answer is the
     * completion message. Throws for an unknown user.
     */
    method NextTopic(userId: string, at: Time, qwen: seq<QwenMessage> -> ModelReply)
      returns (response: Result<NextTopicResponse, string>)
      requires contextManager.Valid()
      modifies contextManager
      ensures contextManager.Valid()
      ensures userId !in old(contextManager.sessions) ==>
                response == Err(SessionNotFound) && contextManager.sessions == old(contextManager.sessions)
      ensures userId in old(contextManager.sessions) && HasNextTopic(old(contextManager.sessions)[userId]) ==>
                var s := old(contextManager.sessions)[userId];
                var moved := AfterMove(s);
                var reply := qwen(InitialTopicPrompt(moved));
                && response == Ok(Moved(MoveMessage(s.currentTopic, moved.currentTopic), Explanation(reply, NextFallback),
                                        TransitionExplanation(s.currentTopic, moved.currentTopic), ProgressOf(moved)))
                && contextManager.sessions == old(contextManager.sessions)[userId := AfterExplanation(moved, reply, at)]
      ensures userId in old(contextManager.sessions) && !HasNextTopic(old(contextManager.sessions)[userId]) ==>
                var moved := AfterMove(old(contextManager.sessions)[userId]);
                && response == Ok(Finished(CompletionMessage, Some(ProgressOf(moved))))
                && contextManager.sessions == old(contextManager.sessions)[userId := moved]
    {
      ghost var before := contextManager.sessions;
      var state := contextManager.GetState(userId);
      var previousTopic := if state.Some? then state.value.currentTopic else "";
      var moved := contextManager.MoveToNextTopic(userId);
      if moved.Err? {
        return Err(moved.error);
      }
      ghost var after := AfterMove(before[userId]);
      assert contextManager.sessions == before[userId := after];
      var progress := contextManager.GetProgress(userId);
      if moved.value && progress.Some? {
        var newTopicExplanation := Explain(userId, NextFallback, at, qwen);
        UpdateTwice(before, userId, after, AfterExplanation(after, qwen(InitialTopicPrompt(after)), at));
        var nextTopic := progress.value.currentTopic;
        var message := MoveMessage(previousTopic, nextTopic);
        return Ok(Moved(message, newTopicExplanation, TransitionExplanation(previousTopic, nextTopic), progress.value));
      }
      return Ok(Finished(CompletionMessage, progress));
    }

    /** Flips role-play mode and says which mode is now on. Throws for an unknown user. */
    method ToggleRoleplay(userId: string) returns (response: Result<ToggleResponse, string>)
      requires contextManager.Valid()
      modifies contextManager
      ensures contextManager.Valid()
      ensures userId !in old(contextManager.sessions) ==>
                response == Err(SessionNotFound) && contextManager.sessions == old(contextManager.sessions)
      ensures userId in old(contextManager.sessions) ==>
                var on := !old(contextManager.sessions)[userId].rolePlayMode;
                && response == Ok(ToggleResponse(true, on, if on then RolePlayOn else RolePlayOff))
                && contextManager.sessions == old(contextManager.sessions)[userId := AfterToggle(old(contextManager.sessions)[userId])]
    {
      var isEnabled := contextManager.ToggleRolePlayMode(userId);
      if isEnabled.Err? {
        return Err(isEnabled.error);
      }
      return Ok(ToggleResponse(true, isEnabled.value, if isEnabled.value then RolePlayOn else RolePlayOff));
    }

    /** The study note and the name it is downloaded under. Throws for an unknown user. */
    method ExportMarkdown(userId: string, generatedAt: string, now: nat) returns (result: Result<MarkdownExport, string>)
      requires contextManager.Valid()
      ensures userId !in contextManager.sessions ==> result == Err(SessionNotFound)
      ensures userId in contextManager.sessions ==>
                var s := contextManager.sessions[userId];
                result == Ok(MarkdownExport(StudyNotes.Markdown(s, generatedAt), ExportFilename(s.currentTopic, now)))
    {
      var markdown := contextManager.GenerateMarkdown(userId, generatedAt);
      if markdown.Err? {
        return Err(markdown.error);
      }
      var state := contextManager.GetState(userId);
      var topic := if state.Some? then state.value.currentTopic else "";
      var sanitizedTopic := SanitizeTopic(topic);
      var filename := "rust-study-" + sanitizedTopic + "-" + NatToString(now) + ".md";
      return Ok(MarkdownExport(markdown.value, filename));
    }
  }
}
