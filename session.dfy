/**
 * What the context manager does to and with one learner's ConversationState: the
 * steps initSession, moveToNextTopic, extractAndSaveIS, saveAIResponse and
 * toggleRolePlayMode take, the progress it reports, and the summary and the prompts
 * it builds from a session.
 */
module Session {
  import opened Wrappers
  import opened Text
  import opened ConversationTypes

  const SessionNotFound: string := "세션을 찾을 수 없습니다."
  const SessionNotFoundStartFirst: string := "세션을 찾을 수 없습니다. 먼저 학습을 시작하세요."

  /** The shape every stored session keeps: a non-empty topic list and a cursor on it. */
  predicate StateValid(s: ConversationState) {
    0 < |s.allTopics| && s.currentTopicIndex < |s.allTopics| && s.currentTopic == s.allTopics[s.currentTopicIndex]
  }

  // ---------------------------------------------------------------------------
  // The session steps
  // ---------------------------------------------------------------------------

  /** The session initSession stores: cursor on the first topic, nothing recorded yet. */
  function InitialState(topics: seq<string>): (s: ConversationState)
    requires |topics| > 0
    ensures StateValid(s)
  {
    ConversationState("", topics[0], topics, 0, map[], [], "", 0, false)
  }

  /** moveToNextTopic advances when the cursor is not on the last topic. */
  predicate HasNextTopic(s: ConversationState) {
    s.currentTopicIndex < |s.allTopics| - 1
  }

  /** `if (state.currentIS) state.topicISHistory.set(state.currentTopic, state.currentIS)` */
  function RecordIS(s: ConversationState): map<string, string> {
    if s.currentIS != "" then s.topicISHistory[s.currentTopic := s.currentIS] else s.topicISHistory
  }

  /** The session after moveToNextTopic. */
  function AfterMove(s: ConversationState): ConversationState {
    var s' := s.(topicISHistory := RecordIS(s));
    if HasNextTopic(s) then
      s'.(currentTopicIndex := s.currentTopicIndex + 1,
          currentTopic := s.allTopics[s.currentTopicIndex + 1],
          currentIS := "")
    else s'
  }

  /** The session after saveAIResponse. */
  function AfterSave(s: ConversationState, response: string, at: Time): ConversationState {
    s.(lastAIResponse := response, conversationHistory := s.conversationHistory + [Message(Assistant, response, at)])
  }

  /** The session after toggleRolePlayMode. */
  function AfterToggle(s: ConversationState): ConversationState {
    s.(rolePlayMode := !s.rolePlayMode)
  }

  // ---------------------------------------------------------------------------
  // The <IS>...</IS> tag: /<IS>([\s\S]*?)<\/IS>/i
  // ---------------------------------------------------------------------------

  const OpenTag: string := "<is>"
  const CloseTag: string := "</is>"

  /** The lower-case `tag` occurs at `k` in `s` when the case of ASCII letters is ignored (the `i` flag). */
  predicate TagAt(s: string, tag: string, k: nat) {
    k + |tag| <= |s| && LowerAscii(s[k..k + |tag|]) == tag
  }

  /** The first offset at or after `from` where `tag` occurs. */
  function FindTag(s: string, tag: string, from: nat): (r: Option<nat>)
    ensures r.Some? ==> from <= r.value && TagAt(s, tag, r.value)
    ensures r.Some? ==> forall j :: from <= j < r.value ==> !TagAt(s, tag, j)
    ensures r.None? ==> forall j :: from <= j ==> !TagAt(s, tag, j)
    decreases |s| - from
  {
    if from + |tag| > |s| then None
    else if TagAt(s, tag, from) then Some(from)
    else FindTag(s, tag, from + 1)
  }

  /**
   * The first match of the IS pattern, as the offsets of its opening and its closing
   * tag: the match that starts leftmost and, among those, ends first.
   */
  function ISTags(s: string): (r: Option<(nat, nat)>)
    ensures r.Some? ==> TagAt(s, OpenTag, r.value.0) && r.value.0 + |OpenTag| <= r.value.1 && TagAt(s, CloseTag, r.value.1)
    ensures r.Some? ==> forall i: nat, j: nat :: TagAt(s, OpenTag, i) && i + |OpenTag| <= j && TagAt(s, CloseTag, j) ==>
                          r.value.0 <= i && (i == r.value.0 ==> r.value.1 <= j)
    ensures r.None? ==> forall i: nat, j: nat :: TagAt(s, OpenTag, i) && i + |OpenTag| <= j ==> !TagAt(s, CloseTag, j)
  {
    var open := FindTag(s, OpenTag, 0);
    if open.None? then None
    else
      var i := open.value;
      var close := FindTag(s, CloseTag, i + |OpenTag|);
      if close.None? then None
      else Some((i, close.value))
  }

  /** `userMessage.match(IS)[1]`: the text between the tags of the first match. */
  function MatchIS(s: string): (r: Option<string>)
    ensures r.Some? <==> ISTags(s).Some?
    ensures r.Some? ==> OccursAt(s, r.value, ISTags(s).value.0 + |OpenTag|)
  {
    match ISTags(s)
    case None => None
    case Some((i, j)) =>
      assert s[i + |OpenTag|..j] == s[i + |OpenTag|..i + |OpenTag| + (j - i - |OpenTag|)];
      Some(s[i + |OpenTag|..j])
  }

  /** The session after extractAndSaveIS: a match replaces the IS and counts a step; the turn is always recorded. */
  function AfterExtract(s: ConversationState, message: string, at: Time): ConversationState {
    var m := MatchIS(message);
    s.(currentIS := if m.Some? then Trim(m.value) else s.currentIS,
       stepCount := if m.Some? then s.stepCount + 1 else s.stepCount,
       conversationHistory := s.conversationHistory + [Message(User, message, at)])
  }

  // ---------------------------------------------------------------------------
  // Properties of the single steps
  // ---------------------------------------------------------------------------

  /** Moving advances the cursor by exactly one, onto the next topic, with an empty IS. */
  lemma MoveAdvances(s: ConversationState)
    requires StateValid(s) && HasNextTopic(s)
    ensures AfterMove(s).currentTopicIndex == s.currentTopicIndex + 1
    ensures AfterMove(s).currentTopic == s.allTopics[s.currentTopicIndex + 1]
    ensures AfterMove(s).currentIS == ""
    ensures AfterMove(s).allTopics == s.allTopics && StateValid(AfterMove(s))
  {
  }

  /** On the last topic moving changes neither the cursor, the topic nor the IS. */
  lemma MoveAtLastTopic(s: ConversationState)
    requires StateValid(s) && !HasNextTopic(s)
    ensures AfterMove(s).currentTopicIndex == s.currentTopicIndex == |s.allTopics| - 1
    ensures AfterMove(s).currentTopic == s.currentTopic && AfterMove(s).currentIS == s.currentIS
    ensures StateValid(AfterMove(s))
  {
  }

  /** The vacated topic's IS is recorded when there is one, and only then; nothing else is recorded. */
  lemma MoveRecordsIS(s: ConversationState)
    ensures s.currentIS != "" ==> AfterMove(s).topicISHistory == s.topicISHistory[s.currentTopic := s.currentIS]
    ensures s.currentIS == "" ==> AfterMove(s).topicISHistory == s.topicISHistory
    ensures AfterMove(s).conversationHistory == s.conversationHistory && AfterMove(s).stepCount == s.stepCount
  {
  }

  /** A second move cannot overwrite what the first recorded: the IS was cleared, or is recorded again unchanged. */
  lemma MoveTwiceKeepsRecord(s: ConversationState)
    requires StateValid(s)
    ensures AfterMove(AfterMove(s)).topicISHistory == AfterMove(s).topicISHistory
  {
    if !HasNextTopic(s) && s.currentIS != "" {
      var h := AfterMove(s).topicISHistory;
      assert s.currentTopic in h && h[s.currentTopic] == s.currentIS;
      assert h[s.currentTopic := s.currentIS] == h;
    }
  }

  /** An IS match sets the trimmed body as the IS and counts one step; otherwise both stay. One user turn is appended. */
  lemma ExtractEffect(s: ConversationState, message: string, at: Time)
    ensures MatchIS(message).Some? ==>
              AfterExtract(s, message, at).currentIS == Trim(MatchIS(message).value)
              && AfterExtract(s, message, at).stepCount == s.stepCount + 1
    ensures MatchIS(message).None? ==>
              AfterExtract(s, message, at).currentIS == s.currentIS
              && AfterExtract(s, message, at).stepCount == s.stepCount
    ensures AfterExtract(s, message, at).conversationHistory == s.conversationHistory + [Message(User, message, at)]
    ensures StateValid(s) ==> StateValid(AfterExtract(s, message, at))
  {
  }

  /** Toggling twice restores the mode. */
  lemma ToggleTwice(s: ConversationState)
    ensures AfterToggle(AfterToggle(s)) == s
    ensures AfterToggle(s).rolePlayMode != s.rolePlayMode
  {
  }

  // ---------------------------------------------------------------------------
  // Sequences of steps on one session
  // ---------------------------------------------------------------------------

  /** The calls that change an existing session. */
  datatype Op = Move | Extract(message: string, at: Time) | Save(response: string, at: Time) | Toggle

  function Apply(s: ConversationState, op: Op): ConversationState {
    match op
    case Move => AfterMove(s)
    case Extract(m, at) => AfterExtract(s, m, at)
    case Save(r, at) => AfterSave(s, r, at)
    case Toggle => AfterToggle(s)
  }

  function ApplyAll(s: ConversationState, ops: seq<Op>): ConversationState
    decreases |ops|
  {
    if ops == [] then s else ApplyAll(Apply(s, ops[0]), ops[1..])
  }

  /**
   * Whatever calls follow, as long as the session is not re-created: the cursor stays
   * on the unchanged topic list and never goes back, the step count never decreases,
   * the history only grows at its end and no recorded summary is ever dropped.
   */
  lemma {:induction false} SessionInvariants(s: ConversationState, ops: seq<Op>)
    requires StateValid(s)
    ensures StateValid(ApplyAll(s, ops))
    ensures ApplyAll(s, ops).allTopics == s.allTopics
    ensures ApplyAll(s, ops).currentTopicIndex >= s.currentTopicIndex
    ensures ApplyAll(s, ops).stepCount >= s.stepCount
    ensures s.conversationHistory <= ApplyAll(s, ops).conversationHistory
    ensures s.topicISHistory.Keys <= ApplyAll(s, ops).topicISHistory.Keys
    decreases |ops|
  {
    if ops != [] {
      var t := Apply(s, ops[0]);
      assert StateValid(t) && t.currentTopicIndex >= s.currentTopicIndex && t.stepCount >= s.stepCount;
      assert s.conversationHistory <= t.conversationHistory;
      assert s.topicISHistory.Keys <= t.topicISHistory.Keys;
      SessionInvariants(t, ops[1..]);
    }
  }

  // ---------------------------------------------------------------------------
  // getProgress
  // ---------------------------------------------------------------------------

  /** `state.allTopics.slice(0, state.currentTopicIndex)` and the rest of the report. */
  function ProgressOf(s: ConversationState): Progress {
    var done := if s.currentTopicIndex <= |s.allTopics| then s.allTopics[..s.currentTopicIndex] else s.allTopics;
    Progress(s.currentTopic, s.currentTopicIndex, |s.allTopics|, done)
  }

  /** The completed topics are exactly the ones before the cursor; with the current one they are a prefix of the plan. */
  lemma ProgressFacts(s: ConversationState)
    requires StateValid(s)
    ensures |ProgressOf(s).completedTopics| == ProgressOf(s).currentIndex < ProgressOf(s).totalTopics == |s.allTopics|
    ensures ProgressOf(s).completedTopics + [ProgressOf(s).currentTopic] == s.allTopics[..s.currentTopicIndex + 1]
  {
    assert s.allTopics[..s.currentTopicIndex + 1] == s.allTopics[..s.currentTopicIndex] + [s.allTopics[s.currentTopicIndex]];
  }

  // ---------------------------------------------------------------------------
  // getPreviousTopicsSummary
  // ---------------------------------------------------------------------------

  const SummaryHeader: string := "\n\n**📚 이전에 학습한 내용 (필수 참고):**\n"

  /** `topicISHistory.get(topic)` is a non-empty summary. */
  predicate HasStoredIS(s: ConversationState, topic: string) {
    topic in s.topicISHistory && s.topicISHistory[topic] != ""
  }

  /** The line for earlier topic `i`: its stored summary, or nothing. */
  function SummaryEntry(s: ConversationState, i: nat): string
    requires i < |s.allTopics|
  {
    var topic := s.allTopics[i];
    if HasStoredIS(s, topic) then "\n\U{25AA}\U{FE0F} **" + topic + "**: " + s.topicISHistory[topic] else ""
  }

  /** The lines for topics `0 .. n-1`, in topic order. */
  function EntryList(s: ConversationState, n: nat): (r: seq<string>)
    requires n <= |s.allTopics|
    ensures |r| == n && forall i :: 0 <= i < n ==> r[i] == SummaryEntry(s, i)
  {
    seq(n, i requires 0 <= i < n => SummaryEntry(s, i))
  }

  /** The text of the lines for topics `0 .. n-1`. */
  function SummaryEntries(s: ConversationState, n: nat): string
    requires n <= |s.allTopics|
  {
    Concat(EntryList(s, n))
  }

  /** One more topic adds its line at the end. */
  lemma SummaryEntriesStep(s: ConversationState, n: nat)
    requires n < |s.allTopics|
    ensures SummaryEntries(s, n + 1) == SummaryEntries(s, n) + SummaryEntry(s, n)
  {
    assert EntryList(s, n + 1)[..n] == EntryList(s, n);
  }

  /** The closing lines that name the previous and the current topic. */
  function LinkLines(s: ConversationState): string
    requires 0 < s.currentTopicIndex <= |s.allTopics|
  {
    "\n\n**🔗 주제 간 연결고리:**\n"
    + "\"" + s.allTopics[s.currentTopicIndex - 1] + "\" \U{2192} \"" + s.currentTopic + "\"\n"
    + "이전 주제를 기초로 삼아 현재 주제를 설명하세요."
  }

  /** getPreviousTopicsSummary for a stored session. */
  function TopicsSummary(s: ConversationState): string
    requires StateValid(s)
  {
    if s.currentTopicIndex == 0 then ""
    else SummaryHeader + SummaryEntries(s, s.currentTopicIndex) + LinkLines(s)
  }

  /** The summary is empty exactly on the first topic; otherwise it opens with its header and closes with the link lines. */
  lemma TopicsSummaryFrame(s: ConversationState)
    requires StateValid(s)
    ensures TopicsSummary(s) == "" <==> s.currentTopicIndex == 0
    ensures s.currentTopicIndex > 0 ==> StartsWith(TopicsSummary(s), SummaryHeader)
    ensures s.currentTopicIndex > 0 ==>
              OccursAt(TopicsSummary(s), LinkLines(s), |TopicsSummary(s)| - |LinkLines(s)|)
  {
    if s.currentTopicIndex > 0 {
      var sum := TopicsSummary(s);
      assert sum[..|SummaryHeader|] == SummaryHeader;
      assert sum[|sum| - |LinkLines(s)|..] == LinkLines(s);
    }
  }

  /** The summary lists the stored summary of every earlier topic that has one, after the header and the lines of the topics before it. */
  lemma TopicsSummaryLists(s: ConversationState, i: nat)
    requires StateValid(s) && i < s.currentTopicIndex && HasStoredIS(s, s.allTopics[i])
    ensures OccursAt(TopicsSummary(s), "\n\U{25AA}\U{FE0F} **" + s.allTopics[i] + "**: " + s.topicISHistory[s.allTopics[i]],
                     |SummaryHeader| + |SummaryEntries(s, i)|)
  {
    var n := s.currentTopicIndex;
    var before, entry := SummaryEntries(s, i), SummaryEntry(s, i);
    EntryInEntries(s, i, n);
    OccursInConcat(SummaryHeader, SummaryEntries(s, n), LinkLines(s), entry, |before|);
  }

  lemma EntryInEntries(s: ConversationState, i: nat, n: nat)
    requires i < n <= |s.allTopics|
    ensures OccursAt(SummaryEntries(s, n), SummaryEntry(s, i), |SummaryEntries(s, i)|)
  {
    assert EntryList(s, n)[..i] == EntryList(s, i);
    ConcatOccurs(EntryList(s, n), i);
  }

  /** The lines come in topic order: the line of topic `i` ends before that of any later topic starts. */
  lemma TopicsSummaryOrder(s: ConversationState, i: nat, j: nat)
    requires i < j <= |s.allTopics|
    ensures |SummaryEntries(s, i)| + |SummaryEntry(s, i)| <= |SummaryEntries(s, j)|
  {
    EntryInEntries(s, i, j);
  }

  // ---------------------------------------------------------------------------
  // buildInitialTopicPrompt and buildPrompt
  // ---------------------------------------------------------------------------

  const InitialRules: string :=
    "당신은 한국인을 위한 Rust 프로그래밍 튜터입니다." + "\n"
    + "\n"
    + "📌 **언어 규칙 (매우 중요)**:" + "\n"
    + "- ✅ 한국어로만 답변하세요" + "\n"
    + "- ✅ Rust 관련 영문 키워드, 함수명, 변수명은 괜찮습니다 (예: Option, unwrap, match)" + "\n"
    + "- ❌ 중국어 문자는 절대 금지입니다" + "\n"
    + "- ❌ 영어 문장은 절대 금지입니다 (예: \"For example\", \"In this case\" 등)" + "\n"
    + "\n"
    + "부정적 예시 (하지 말 것):" + "\n"
    + "❌ \"这个概念很重要\" (중국어)" + "\n"
    + "❌ \"The Option type is used for null safety\" (영어 문장)" + "\n"
    + "✅ \"Option 타입은 값이 있을 수도, 없을 수도 있는 상황을 나타냅니다\"" + "\n"
    + "\n"
    + "\""
  const InitialTask: string :=
    "\" 주제를 명확하게 설명하세요." + "\n"
    + "- 핵심 개념 중심 설명 (150-250단어)" + "\n"
    + "- 실제 사용 사례 2-3개 포함" + "\n"
    + "- 쉽고 이해하기 편한 한국어로 사용" + "\n"
  const LinkToPrevious: string := "- 이전 학습 내용과 연결지어 설명:\n"

  /** `previousSummary.split('\n').slice(2).join('\n')` */
  function DropTwoLines(summary: string): string {
    var lines := Split(summary, "\n");
    if |lines| <= 2 then "" else Join(lines[2..], "\n")
  }

  /** The system message of buildInitialTopicPrompt. */
  function InitialSystemContent(s: ConversationState): string
    requires StateValid(s)
  {
    var summary := TopicsSummary(s);
    InitialRules + s.currentTopic + InitialTask
    + (if summary != "" then LinkToPrevious + DropTwoLines(summary) else "")
  }

  /** buildInitialTopicPrompt for a stored session. */
  function InitialTopicPrompt(s: ConversationState): (r: seq<QwenMessage>)
    requires StateValid(s)
    ensures |r| == 2 && r[0].role == System && r[1].role == User
  {
    [QwenMessage(System, InitialSystemContent(s)),
     QwenMessage(User, "\"" + s.currentTopic + "\"를 설명해줘.")]
  }

  /** A summary starts with two line feeds, so dropping its first two lines drops exactly those. */
  lemma DropTwoLinesOfSummary(rest: string)
    ensures DropTwoLines("\n\n" + rest) == rest
  {
    var s := "\n\n" + rest;
    assert s[0..1] == "\n";
    assert IndexOf(s, "\n", 0) == Some(0);
    assert s[1..] == "\n" + rest;
    assert (s[1..])[0..1] == "\n";
    assert IndexOf(s[1..], "\n", 0) == Some(0);
    assert s[1..][1..] == rest;
    assert Split(s, "\n") == [""] + ([""] + Split(rest, "\n"));
    assert Split(s, "\n")[2..] == Split(rest, "\n");
    JoinSplit(rest, "\n");
  }

  /**
   * The first prompt for a topic names it in both messages; it carries the summary of
   * the earlier topics, without its two leading line feeds, exactly when there is one.
   */
  lemma InitialPromptContents(s: ConversationState)
    requires StateValid(s)
    ensures var c := InitialSystemContent(s);
            StartsWith(c, InitialRules + s.currentTopic + InitialTask)
            && (s.currentTopicIndex == 0 ==> c == InitialRules + s.currentTopic + InitialTask)
            && (s.currentTopicIndex > 0 ==>
                  c == InitialRules + s.currentTopic + InitialTask + LinkToPrevious + TopicsSummary(s)[2..])
  {
    var head := InitialRules + s.currentTopic + InitialTask;
    var summary := TopicsSummary(s);
    var tail := if summary != "" then LinkToPrevious + DropTwoLines(summary) else "";
    StartsWithAppend(head, tail);
    TopicsSummaryFrame(s);
    if s.currentTopicIndex > 0 {
      SummaryOpening(s);
      DropTwoLinesOfSummary(summary[2..]);
      AppendAssoc(head, LinkToPrevious, summary[2..]);
    }
  }

  /** A non-empty summary opens with two line feeds. */
  lemma SummaryOpening(s: ConversationState)
    requires StateValid(s) && s.currentTopicIndex > 0
    ensures TopicsSummary(s) == "\n\n" + TopicsSummary(s)[2..]
  {
    var summary := TopicsSummary(s);
    var rest := SummaryEntries(s, s.currentTopicIndex) + LinkLines(s);
    AppendAssoc(SummaryHeader, SummaryEntries(s, s.currentTopicIndex), LinkLines(s));
    assert SummaryHeader == "\n\n" + SummaryHeader[2..];
    AppendAssoc("\n\n", SummaryHeader[2..], rest);
  }

  const RulesHeadLines: seq<string> := [
    "당신은 한국인을 위한 Rust 프로그래밍 튜터입니다.",
    "",
    "📌 **언어 규칙 (매우 중요)**:",
    "- ✅ 한국어로만 답변하세요",
    "- ✅ Rust 관련 영문 키워드, 함수명, 변수명은 괜찮습니다 (예: Option, Result, unwrap)",
    "- ❌ 중국어 문자는 절대 금지입니다",
    "- ❌ 중국어 또는 영어 문장은 절대 금지입니다",
    "",
    "**핵심 규칙**:",
    "1. 학생의 <IS>태그 내용을 평가하세요",
    "2. 정확하면: 칭찬 + "]
  const RulesHead: string := Join(RulesHeadLines, "\n")
  const NextTopicCue: string := "\"다음 주제로 진행하세요\""
  const CompletionCue: string := "\"완료! 축하합니다\""
  const RulesTailLines: seq<string> := [
    "",
    "3. 부족하면: 구체적으로 설명하고 다시 요약하라고 하세요",
    "4. <IS>가 없으면: \"<IS>태그로 요약해주세요\"라고 안내하세요",
    ""]
  const RulesTail: string := Join(RulesTailLines, "\n")
  const RolePlayLines: seq<string> := [
    "",
    "",
    "**🎭 역할극 모드 활성화됨**",
    "",
    "사용자가 \"어떻게 사용해?\", \"언제 사용해?\", \"실제로 어떻게 쓰는지 예시 보여줘\" 같은 질문을 하면:",
    "",
    "1. **실제 개발 상황을 역할극으로 만들어주세요**",
    "2. 등장인물 설정 (예: 주니어 개발자, 시니어 개발자)",
    "3. 구체적인 대화 형식으로 상황 전개",
    "4. 학습한 개념이 **왜 필요한지**, **어떻게 해결하는지** 보여주기",
    "5. 반드시 실행 가능한 코드 예제 포함",
    "",
    "예시 형식:",
    "---",
    "🎬 **상황**: API 서버 개발 중 널 포인터 에러로 서버가 다운됨",
    "",
    "👤 **등장인물**:",
    "- 민수 (주니어 개발자): Rust를 배우는 중",
    "- 지연 (시니어 개발자): 3년 차 Rust 개발자",
    "",
    "💬 **대화**:",
    "민수: \"아... 또 서버가 터졌어요 ㅠㅠ\"",
    "지연: \"로그 좀 보자. 아, 이거 user.name이 None인데 unwrap() 쓴 거 때문이네.\"",
    "",
    "💻 **코드 예제**:",
    "```rust",
    "// 기존 코드 (문제)",
    "let name = user.name.unwrap(); // 💥 panic!",
    "",
    "// 개선 코드 (해결)",
    "let name = user.name.unwrap_or(\"익명\".to_string());",
    "```",
    "---",
    "",
    "이런 식으로 생생하게 만들어주세요!"]
  const RolePlayInstruction: string := Join(RolePlayLines, "\n")
  const SummaryInstructionLines: seq<string> := [
    "",
    "",
    "**중요한 지시사항**:",
    "위의 \"이전에 학습한 내용\"과 \"주제 간 연결고리\"를 반드시 고려하세요.",
    "학생의 답변을 평가할 때, 이전 주제와의 관계를 언급하며 통합적으로 설명하세요."]
  const SummaryInstruction: string := Join(SummaryInstructionLines, "\n")

  /** What the tutor is told to say to a correct summary. */
  function EvaluationCue(s: ConversationState): string {
    if |s.allTopics| > 1 && s.currentTopicIndex < |s.allTopics| - 1 then NextTopicCue else CompletionCue
  }

  /** The system message of buildPrompt. */
  function PromptSystemContent(s: ConversationState): string
    requires StateValid(s)
  {
    var summary := TopicsSummary(s);
    RulesHead + EvaluationCue(s) + RulesTail
    + (if s.rolePlayMode then RolePlayInstruction else "")
    + (if |s.allTopics| > 1 && summary != "" then "\n" + summary + SummaryInstruction else "")
  }

  /** buildPrompt for a stored session: the system message and the learner's message, nothing else. */
  function Prompt(s: ConversationState, userMessage: string): (r: seq<QwenMessage>)
    requires StateValid(s)
    ensures |r| == 2 && r[0].role == System && r[1] == QwenMessage(User, userMessage)
  {
    [QwenMessage(System, PromptSystemContent(s)), QwenMessage(User, userMessage)]
  }

  /** The tutor is told to move on exactly when there are several topics and this is not the last. */
  lemma EvaluationCueChoice(s: ConversationState)
    ensures EvaluationCue(s) == NextTopicCue <==> |s.allTopics| > 1 && s.currentTopicIndex < |s.allTopics| - 1
    ensures EvaluationCue(s) == CompletionCue <==> !(|s.allTopics| > 1 && s.currentTopicIndex < |s.allTopics| - 1)
  {
    assert NextTopicCue[1] != CompletionCue[1];
  }

  /** The system message opens with the evaluation rules and the cue the session calls for. */
  lemma PromptOpening(s: ConversationState)
    requires StateValid(s)
    ensures StartsWith(PromptSystemContent(s), RulesHead + EvaluationCue(s) + RulesTail)
    ensures !s.rolePlayMode && (|s.allTopics| == 1 || s.currentTopicIndex == 0) ==>
              PromptSystemContent(s) == RulesHead + EvaluationCue(s) + RulesTail
  {
    var head := RulesHead + EvaluationCue(s) + RulesTail;
    var roles := if s.rolePlayMode then RolePlayInstruction else "";
    var summary := TopicsSummary(s);
    var context := if |s.allTopics| > 1 && summary != "" then "\n" + summary + SummaryInstruction else "";
    AppendAssoc(head, roles, context);
    StartsWithAppend(head, roles + context);
    if !s.rolePlayMode && (|s.allTopics| == 1 || s.currentTopicIndex == 0) {
      TopicsSummaryFrame(s);
    }
  }

  /** In role-play mode the instruction follows the rules. */
  lemma PromptRolePlay(s: ConversationState)
    requires StateValid(s) && s.rolePlayMode
    ensures OccursAt(PromptSystemContent(s), RolePlayInstruction, |RulesHead + EvaluationCue(s) + RulesTail|)
  {
    var head := RulesHead + EvaluationCue(s) + RulesTail;
    var c := PromptSystemContent(s);
    assert c[|head|..|head| + |RolePlayInstruction|] == RolePlayInstruction;
  }

  /** With several topics and earlier ones behind, the earlier topics' summary is part of the system message. */
  lemma PromptCarriesSummary(s: ConversationState)
    requires StateValid(s) && |s.allTopics| > 1 && s.currentTopicIndex > 0
    ensures Occurs(PromptSystemContent(s), TopicsSummary(s))
  {
    TopicsSummaryFrame(s);
    var pre := RulesHead + EvaluationCue(s) + RulesTail + (if s.rolePlayMode then RolePlayInstruction else "");
    var summary := TopicsSummary(s);
    var tail := "\n" + summary + SummaryInstruction;
    assert PromptSystemContent(s) == pre + tail;
    OccursInMiddle("\n", summary, SummaryInstruction);
    OccursInConcat(pre, tail, "", summary, 1);
    assert pre + tail + "" == pre + tail;
  }
}

