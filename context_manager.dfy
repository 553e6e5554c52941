/**
 * ContextManagerService: the in-memory table of learners' sessions, keyed by user
 * id, and the calls that create, advance, annotate and render them. Every call that
 * changes a session replaces exactly that user's entry by the step function of the
 * Session module; every call that reads one agrees with the function that defines
 * what it builds.
 */
module ContextManager {
  import opened Wrappers
  import opened Text
  import opened ConversationTypes
  import opened Session
  import StudyNotes

  /** A second update of the same key replaces the first. */
  lemma UpdateTwice(m: map<string, ConversationState>, k: string, a: ConversationState, b: ConversationState)
    ensures m[k := a][k := b] == m[k := b]
  {
  }

  class ContextManagerService {
    /** `private sessions = new Map<string, ConversationState>()` */
    var sessions: map<string, ConversationState>

    /** Every stored session keeps a non-empty topic list with the cursor on it. */
    ghost predicate Valid()
      reads this
    {
      forall u :: u in sessions ==> StateValid(sessions[u])
    }

    constructor()
      ensures Valid() && sessions == map[]
    {
      sessions := map[];
    }

    /** Starts (or restarts) the session of `userId` on the given topics. */
    method InitSession(userId: string, topics: Topics)
      requires Valid() && |TopicArray(topics)| > 0
      modifies this
      ensures Valid()
      ensures sessions == old(sessions)[userId := InitialState(TopicArray(topics))]
    {
      var topicArray := TopicArray(topics);
      sessions := sessions[userId := ConversationState("", topicArray[0], topicArray, 0, map[], [], "", 0, false)];
    }

    /** `sessions.get(userId)` */
    function GetState(userId: string): (r: Option<ConversationState>)
      reads this
      requires Valid()
      ensures r.Some? <==> userId in sessions
      ensures r.Some? ==> r.value == sessions[userId] && StateValid(r.value)
    {
      if userId in sessions then Some(sessions[userId]) else None
    }

    /**
     * Records the current summary under the current topic, then moves the cursor on
     * when a later topic exists; answers whether it moved. Throws for an unknown user.
     */
    method MoveToNextTopic(userId: string) returns (moved: Result<bool, string>)
      requires Valid()
      modifies this
      ensures Valid()
      ensures userId !in old(sessions) ==> moved == Err(SessionNotFound) && sessions == old(sessions)
      ensures userId in old(sessions) ==>
                moved == Ok(HasNextTopic(old(sessions)[userId]))
                && sessions == old(sessions)[userId := AfterMove(old(sessions)[userId])]
    {
      if userId !in sessions {
        return Err(SessionNotFound);
      }
      var state := sessions[userId];
      if state.currentIS != "" {
        state := state.(topicISHistory := state.topicISHistory[state.currentTopic := state.currentIS]);
      }
      if state.currentTopicIndex < |state.allTopics| - 1 {
        state := state.(currentTopicIndex := state.currentTopicIndex + 1);
        state := state.(currentTopic := state.allTopics[state.currentTopicIndex], currentIS := "");
        sessions := sessions[userId := state];
        return Ok(true);
      }
      sessions := sessions[userId := state];
      return Ok(false);
    }

    /** The summary of the topics before the cursor, or nothing for an unknown user or the first topic. */
    method GetPreviousTopicsSummary(userId: string) returns (summary: string)
      requires Valid()
      ensures userId in sessions ==> summary == TopicsSummary(sessions[userId])
      ensures userId !in sessions ==> summary == ""
    {
      if userId !in sessions || sessions[userId].currentTopicIndex == 0 {
        return "";
      }
      var state := sessions[userId];
      summary := SummaryHeader;
      var i := 0;
      while i < state.currentTopicIndex
        invariant 0 <= i <= state.currentTopicIndex
        invariant summary == SummaryHeader + SummaryEntries(state, i)
      {
        var topic := state.allTopics[i];
        SummaryEntriesStep(state, i);
        if topic in state.topicISHistory && state.topicISHistory[topic] != "" {
          AppendAssoc(SummaryHeader, SummaryEntries(state, i), SummaryEntry(state, i));
          summary := summary + ("\n\U{25AA}\U{FE0F} **" + topic + "**: " + state.topicISHistory[topic]);
        }
        i := i + 1;
      }
      var previousTopic := state.allTopics[state.currentTopicIndex - 1];
      var currentTopic := state.currentTopic;
      var link := "\n\n**🔗 주제 간 연결고리:**\n"
        + "\"" + previousTopic + "\" \U{2192} \"" + currentTopic + "\"\n"
        + "이전 주제를 기초로 삼아 현재 주제를 설명하세요.";
      assert link == LinkLines(state);
      summary := summary + link;
    }

    /** Flips the role-play switch and answers its new value. Throws for an unknown user. */
    method ToggleRolePlayMode(userId: string) returns (enabled: Result<bool, string>)
      requires Valid()
      modifies this
      ensures Valid()
      ensures userId !in old(sessions) ==> enabled == Err(SessionNotFound) && sessions == old(sessions)
      ensures userId in old(sessions) ==>
                enabled == Ok(!old(sessions)[userId].rolePlayMode)
                && sessions == old(sessions)[userId := AfterToggle(old(sessions)[userId])]
    {
      if userId !in sessions {
        return Err(SessionNotFound);
      }
      var state := sessions[userId];
      state := state.(rolePlayMode := !state.rolePlayMode);
      sessions := sessions[userId := state];
      return Ok(state.rolePlayMode);
    }

    /** The cursor and the topics before it; `null` for an unknown user. */
    function GetProgress(userId: string): (r: Option<Progress>)
      reads this
      requires Valid()
      ensures r.None? <==> userId !in sessions
      ensures r.Some? ==>
                var s := sessions[userId];
                r.value.currentTopic == s.currentTopic
                && r.value.currentIndex == s.currentTopicIndex < r.value.totalTopics == |s.allTopics|
                && r.value.completedTopics == s.allTopics[..s.currentTopicIndex]
                && r.value == ProgressOf(s)
    {
      if userId !in sessions then None
      else
        var state := sessions[userId];
        Some(Progress(state.currentTopic, state.currentTopicIndex, |state.allTopics|, state.allTopics[..state.currentTopicIndex]))
    }

    /** The two messages that ask the model to explain the current topic. Throws for an unknown user. */
    method BuildInitialTopicPrompt(userId: string) returns (prompt: Result<seq<QwenMessage>, string>)
      requires Valid()
      ensures userId !in sessions ==> prompt == Err(SessionNotFoundStartFirst)
      ensures userId in sessions ==> prompt == Ok(InitialTopicPrompt(sessions[userId]))
    {
      if userId !in sessions {
        return Err(SessionNotFoundStartFirst);
      }
      var state := sessions[userId];
      var previousSummary := GetPreviousTopicsSummary(userId);
      var content := InitialRules + state.currentTopic + InitialTask
        + (if previousSummary != "" then LinkToPrevious + DropTwoLines(previousSummary) else "");
      prompt := Ok([QwenMessage(System, content), QwenMessage(User, "\"" + state.currentTopic + "\"를 설명해줘.")]);
    }

    /** The system message that tells the model how to judge the learner's message, and that message. Throws for an unknown user. */
    method BuildPrompt(userId: string, userMessage: string) returns (prompt: Result<seq<QwenMessage>, string>)
      requires Valid()
      ensures userId !in sessions ==> prompt == Err(SessionNotFoundStartFirst)
      ensures userId in sessions ==> prompt == Ok(Prompt(sessions[userId], userMessage))
    {
      if userId !in sessions {
        return Err(SessionNotFoundStartFirst);
      }
      var state := sessions[userId];
      var previousSummary := GetPreviousTopicsSummary(userId);
      var rolePlayInstruction := if state.rolePlayMode then RolePlayInstruction else "";
      var content := RulesHead
        + (if |state.allTopics| > 1 && state.currentTopicIndex < |state.allTopics| - 1 then NextTopicCue else CompletionCue)
        + RulesTail + rolePlayInstruction
        + (if |state.allTopics| > 1 && previousSummary != "" then "\n" + previousSummary + SummaryInstruction else "");
      prompt := Ok([QwenMessage(System, content), QwenMessage(User, userMessage)]);
    }

    /**
     * Records the learner's message; when it holds an <IS>...</IS> block the trimmed
     * text inside becomes the current summary and counts one step. Answers whether
     * there was such a block; an unknown user changes nothing and answers false.
     */
    method ExtractAndSaveIS(userId: string, userMessage: string, at: Time) returns (hasIS: bool)
      requires Valid()
      modifies this
      ensures Valid()
      ensures userId !in old(sessions) ==> !hasIS && sessions == old(sessions)
      ensures userId in old(sessions) ==>
                hasIS == MatchIS(userMessage).Some?
                && sessions == old(sessions)[userId := AfterExtract(old(sessions)[userId], userMessage, at)]
    {
      var isMatch := MatchIS(userMessage);
      if userId !in sessions {
        return false;
      }
      var state := sessions[userId];
      ghost var before := state;
      if isMatch.Some? {
        state := state.(currentIS := Trim(isMatch.value), stepCount := state.stepCount + 1);
      }
      state := state.(conversationHistory := state.conversationHistory + [Message(User, userMessage, at)]);
      assert state == AfterExtract(before, userMessage, at);
      ExtractEffect(before, userMessage, at);
      sessions := sessions[userId := state];
      hasIS := isMatch.Some?;
    }

    /** Records the model's reply as the last response and as a history turn; an unknown user changes nothing. */
    method SaveAIResponse(userId: string, response: string, at: Time)
      requires Valid()
      modifies this
      ensures Valid()
      ensures userId !in old(sessions) ==> sessions == old(sessions)
      ensures userId in old(sessions) ==> sessions == old(sessions)[userId := AfterSave(old(sessions)[userId], response, at)]
    {
      if userId !in sessions {
        return;
      }
      var state := sessions[userId];
      state := state.(lastAIResponse := response);
      state := state.(conversationHistory := state.conversationHistory + [Message(Assistant, response, at)]);
      sessions := sessions[userId := state];
    }

    /** The study note of the session. Throws for an unknown user. */
    method GenerateMarkdown(userId: string, generatedAt: string) returns (markdown: Result<string, string>)
      requires Valid()
      ensures userId !in sessions ==> markdown == Err(SessionNotFound)
      ensures userId in sessions ==> markdown == Ok(StudyNotes.Markdown(sessions[userId], generatedAt))
    {
      if userId !in sessions {
        return Err(SessionNotFound);
      }
      var text := StudyNotes.RenderMarkdown(sessions[userId], generatedAt);
      return Ok(text);
    }
  }
}
