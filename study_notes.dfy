/**
 * The markdown study note generateMarkdown renders from a session: a title, the
 * topic list with a status mark per topic (or the single topic), the generation
 * date and step count, the recorded turns, and a closing banner.
 */
module StudyNotes {
  import opened Text
  import opened ConversationTypes
  import opened Session

  /** A session with more than one topic gets the multi-objective layout. */
  predicate MultiObjective(s: ConversationState) {
    |s.allTopics| > 1
  }

  /** `/<IS>([\s\S]*?)<\/IS>/i.test(content)` */
  predicate HasIS(content: string) {
    ISTags(content).Some?
  }

  const NoteTitle: string := "# 🦀 Rust 학습 노트"
  const MultiObjectiveMark: string := " (Multi-Objective)"
  const TopicListHeading: string := "## 📚 학습 주제\n\n"
  const Rule: string := "---\n\n"
  const Farewell: string := "\n\n수고하셨습니다! 🎉\n"
  const NoSummary: string := "(요약 없음)"

  function Title(s: ConversationState): string {
    NoteTitle + (if MultiObjective(s) then MultiObjectiveMark else "") + "\n\n"
  }

  /** The mark of topic `i` in the topic list: done, current or still to come. */
  function StatusMark(s: ConversationState, i: nat): string {
    if i < s.currentTopicIndex then "✅" else if i == s.currentTopicIndex then "🔄" else "⏳"
  }

  function StatusLine(s: ConversationState, i: nat): string
    requires i < |s.allTopics|
  {
    NatToString(i + 1) + ". " + StatusMark(s, i) + " " + s.allTopics[i] + "\n"
  }

  function StatusLines(s: ConversationState): (r: seq<string>)
    ensures |r| == |s.allTopics| && forall i :: 0 <= i < |r| ==> r[i] == StatusLine(s, i)
  {
    seq(|s.allTopics|, i requires 0 <= i < |s.allTopics| => StatusLine(s, i))
  }

  /** The topic list of a multi-topic note, or the single topic. */
  function Overview(s: ConversationState): string {
    if MultiObjective(s) then TopicListHeading + Concat(StatusLines(s)) + "\n"
    else "**주제**: " + s.currentTopic + "\n\n"
  }

  /** The generation date (`toLocaleString('ko-KR')`, a parameter here) and the step count. */
  function Meta(s: ConversationState, generatedAt: string): string {
    "**생성 일시**: " + generatedAt + "\n" + ("**총 학습 단계**: " + NatToString(s.stepCount) + "단계\n\n") + Rule
  }

  // ---------------------------------------------------------------------------
  // One section per topic (several topics)
  // ---------------------------------------------------------------------------

  /** What a turn adds to the section of `topic`: turns that do not mention the topic, and user turns without an IS, add nothing. */
  function TopicTurn(m: Message, topic: string, step: nat): string {
    if !Contains(m.content, topic) then ""
    else match m.role
      case User => if HasIS(m.content) then "#### Step " + NatToString(step) + ": 나의 이해\n\n" + m.content + "\n\n" else ""
      case Assistant => "**AI 피드백**:\n\n" + m.content + "\n\n"
      case System => ""
  }

  /** The section's step number after turn `m`: a feedback turn on the topic closes a step. */
  function TopicNextStep(m: Message, topic: string, step: nat): nat {
    if Contains(m.content, topic) && m.role == Assistant then step + 1 else step
  }

  /** The turns from `i` on, as the section of `topic` shows them when turn `i` is numbered `step`. */
  function TopicHistory(h: seq<Message>, topic: string, i: nat, step: nat): string
    requires i <= |h|
    decreases |h| - i
  {
    if i == |h| then "" else TopicTurn(h[i], topic, step) + TopicHistory(h, topic, i + 1, TopicNextStep(h[i], topic, step))
  }

  function SectionHeading(i: nat, topic: string): string {
    "## 📖 주제 " + NatToString(i + 1) + ": " + topic + "\n\n"
  }

  /** The stored summary of a topic, when it has a non-empty one. */
  function ISBlock(s: ConversationState, topic: string): string {
    if HasStoredIS(s, topic) then "### ✅ 최종 이해 요약\n\n" + ("<IS>" + s.topicISHistory[topic] + "</IS>\n\n") else ""
  }

  function TopicSection(s: ConversationState, i: nat): string
    requires i < |s.allTopics|
  {
    var topic := s.allTopics[i];
    SectionHeading(i, topic) + ISBlock(s, topic) + TopicHistory(s.conversationHistory, topic, 0, 1) + Rule
  }

  function TopicSections(s: ConversationState): (r: seq<string>)
    ensures |r| == |s.allTopics| && forall i :: 0 <= i < |r| ==> r[i] == TopicSection(s, i)
  {
    seq(|s.allTopics|, i requires 0 <= i < |s.allTopics| => TopicSection(s, i))
  }

  // ---------------------------------------------------------------------------
  // The history of a single-topic session
  // ---------------------------------------------------------------------------

  /** A feedback turn that answers a user turn with an IS. */
  predicate AnswersIS(h: seq<Message>, i: nat)
    requires i < |h|
  {
    h[i].role == Assistant && i > 0 && h[i - 1].role == User && HasIS(h[i - 1].content)
  }

  function SingleTurn(m: Message, step: nat): string {
    match m.role
    case User =>
      if HasIS(m.content) then "## 📝 Step " + NatToString(step) + ": 나의 이해\n\n" + m.content + "\n\n"
      else "### 💬 질문/응답\n\n" + m.content + "\n\n"
    case Assistant => "### 🤖 AI 피드백\n\n" + m.content + "\n\n" + Rule
    case System => ""
  }

  /** The step number after turn `i`: a feedback turn that answers an IS closes a step. */
  function SingleNextStep(h: seq<Message>, i: nat, step: nat): nat
    requires i < |h|
  {
    if AnswersIS(h, i) then step + 1 else step
  }

  /** The turns from `i` on, as the note shows them when turn `i` is numbered `step`. */
  function SingleHistory(h: seq<Message>, i: nat, step: nat): string
    requires i <= |h|
    decreases |h| - i
  {
    if i == |h| then "" else SingleTurn(h[i], step) + SingleHistory(h, i + 1, SingleNextStep(h, i, step))
  }

  function Body(s: ConversationState): string {
    if MultiObjective(s) then Concat(TopicSections(s)) else SingleHistory(s.conversationHistory, 0, 1)
  }

  // ---------------------------------------------------------------------------
  // The closing banner
  // ---------------------------------------------------------------------------

  /** `topicISHistory.get(topic) || '(요약 없음)'` */
  function BannerSummary(s: ConversationState, topic: string): string {
    if HasStoredIS(s, topic) then s.topicISHistory[topic] else NoSummary
  }

  function BannerLine(s: ConversationState, i: nat): string
    requires i < |s.allTopics|
  {
    var topic := s.allTopics[i];
    NatToString(i + 1) + ". **" + topic + "**: " + Prefix(BannerSummary(s, topic), 100) + "...\n"
  }

  function BannerLines(s: ConversationState): (r: seq<string>)
    ensures |r| == |s.allTopics| && forall i :: 0 <= i < |r| ==> r[i] == BannerLine(s, i)
  {
    seq(|s.allTopics|, i requires 0 <= i < |s.allTopics| => BannerLine(s, i))
  }

  const ClosingHeading: string := "\n## ✅ 학습 완료!\n\n"

  /** The totals line of a multi-topic note and the heading of its banner. */
  function BannerIntro(s: ConversationState): string {
    "총 " + NatToString(|s.allTopics|) + "개의 주제를 " + NatToString(s.stepCount) + "단계로 나누어 학습했습니다.\n\n"
    + "**학습한 주제들의 연결고리**:\n"
  }

  /** The totals, with the banner of topics when there are several. */
  function Totals(s: ConversationState): string {
    if MultiObjective(s) then BannerIntro(s) + Concat(BannerLines(s))
    else "총 " + NatToString(s.stepCount) + "단계의 학습을 완료했습니다."
  }

  function Closing(s: ConversationState): string {
    ClosingHeading + Totals(s) + Farewell
  }

  /** The parts of the note, in order. */
  function NoteParts(s: ConversationState, generatedAt: string): seq<string> {
    [Title(s), Overview(s), Meta(s, generatedAt), Body(s), Closing(s)]
  }

  /** The note generateMarkdown returns for a stored session, generated at `generatedAt`. */
  function Markdown(s: ConversationState, generatedAt: string): string {
    Concat(NoteParts(s, generatedAt))
  }

  // ---------------------------------------------------------------------------
  // Rendering, as generateMarkdown appends to its text
  // ---------------------------------------------------------------------------

  method RenderTopicList(s: ConversationState) returns (list: string)
    ensures list == Concat(StatusLines(s))
  {
    list := "";
    var idx := 0;
    while idx < |s.allTopics|
      invariant idx <= |s.allTopics|
      invariant list == Concat(StatusLines(s)[..idx])
    {
      var status := if idx < s.currentTopicIndex then "✅" else if idx == s.currentTopicIndex then "🔄" else "⏳";
      assert StatusLines(s)[..idx + 1][..idx] == StatusLines(s)[..idx];
      list := list + (NatToString(idx + 1) + ". " + status + " " + s.allTopics[idx] + "\n");
      idx := idx + 1;
    }
    assert StatusLines(s)[..idx] == StatusLines(s);
  }

  method RenderTopicSection(s: ConversationState, topicIdx: nat) returns (section: string)
    requires topicIdx < |s.allTopics|
    ensures section == TopicSection(s, topicIdx)
  {
    var topic := s.allTopics[topicIdx];
    var h := s.conversationHistory;
    section := "## 📖 주제 " + NatToString(topicIdx + 1) + ": " + topic + "\n\n";
    if topic in s.topicISHistory && s.topicISHistory[topic] != "" {
      section := section + ("### ✅ 최종 이해 요약\n\n" + ("<IS>" + s.topicISHistory[topic] + "</IS>\n\n"));
    }
    assert section == SectionHeading(topicIdx, topic) + ISBlock(s, topic);
    ghost var head := section;
    var stepNum := 1;
    var i := 0;
    while i < |h|
      invariant i <= |h|
      invariant section + TopicHistory(h, topic, i, stepNum) == head + TopicHistory(h, topic, 0, 1)
    {
      var msg := h[i];
      ghost var before, turn, next := section, TopicTurn(msg, topic, stepNum), TopicNextStep(msg, topic, stepNum);
      assert TopicHistory(h, topic, i, stepNum) == turn + TopicHistory(h, topic, i + 1, next);
      if Contains(msg.content, topic) {
        if msg.role == User {
          var hasIS := ISTags(msg.content).Some?;
          if hasIS {
            section := section + ("#### Step " + NatToString(stepNum) + ": 나의 이해\n\n" + msg.content + "\n\n");
          }
        } else if msg.role == Assistant {
          section := section + ("**AI 피드백**:\n\n" + msg.content + "\n\n");
          stepNum := stepNum + 1;
        }
      }
      assert section == before + turn && stepNum == next;
      AppendAssoc(before, turn, TopicHistory(h, topic, i + 1, next));
      i := i + 1;
    }
    assert section == head + TopicHistory(h, topic, 0, 1);
    section := section + Rule;
  }

  method RenderSingleHistory(h: seq<Message>) returns (history: string)
    ensures history == SingleHistory(h, 0, 1)
  {
    history := "";
    var stepNum := 1;
    var i := 0;
    while i < |h|
      invariant i <= |h|
      invariant history + SingleHistory(h, i, stepNum) == SingleHistory(h, 0, 1)
    {
      var msg := h[i];
      ghost var before, turn, next := history, SingleTurn(msg, stepNum), SingleNextStep(h, i, stepNum);
      assert SingleHistory(h, i, stepNum) == turn + SingleHistory(h, i + 1, next);
      if msg.role == User {
        var hasIS := ISTags(msg.content).Some?;
        if hasIS {
          history := history + ("## 📝 Step " + NatToString(stepNum) + ": 나의 이해\n\n" + msg.content + "\n\n");
        } else {
          history := history + ("### 💬 질문/응답\n\n" + msg.content + "\n\n");
        }
      } else if msg.role == Assistant {
        history := history + ("### 🤖 AI 피드백\n\n" + msg.content + "\n\n" + Rule);
        if i > 0 && h[i - 1].role == User {
          var prevHasIS := ISTags(h[i - 1].content).Some?;
          if prevHasIS {
            stepNum := stepNum + 1;
          }
        }
      }
      assert history == before + turn && stepNum == next;
      AppendAssoc(before, turn, SingleHistory(h, i + 1, next));
      i := i + 1;
    }
  }

  method RenderBanner(s: ConversationState) returns (banner: string)
    ensures banner == Concat(BannerLines(s))
  {
    banner := "";
    var idx := 0;
    while idx < |s.allTopics|
      invariant idx <= |s.allTopics|
      invariant banner == Concat(BannerLines(s)[..idx])
    {
      var topic := s.allTopics[idx];
      var summary := if topic in s.topicISHistory && s.topicISHistory[topic] != "" then s.topicISHistory[topic] else NoSummary;
      assert BannerLines(s)[..idx + 1][..idx] == BannerLines(s)[..idx];
      banner := banner + (NatToString(idx + 1) + ". **" + topic + "**: " + Prefix(summary, 100) + "...\n");
      idx := idx + 1;
    }
    assert BannerLines(s)[..idx] == BannerLines(s);
  }

  method RenderClosing(s: ConversationState) returns (closing: string)
    ensures closing == Closing(s)
  {
    closing := ClosingHeading;
    if |s.allTopics| > 1 {
      var banner := RenderBanner(s);
      closing := closing + (BannerIntro(s) + banner);
    } else {
      closing := closing + ("총 " + NatToString(s.stepCount) + "단계의 학습을 완료했습니다.");
    }
    closing := closing + Farewell;
  }

  /** generateMarkdown for a stored session: the text it builds is the note `Markdown` describes. */
  method RenderMarkdown(s: ConversationState, generatedAt: string) returns (markdown: string)
    ensures markdown == Markdown(s, generatedAt)
  {
    var isMultiObjective := |s.allTopics| > 1;
    markdown := NoteTitle + (if isMultiObjective then MultiObjectiveMark else "") + "\n\n";
    assert markdown == Title(s);
    if isMultiObjective {
      var list := RenderTopicList(s);
      markdown := markdown + (TopicListHeading + list + "\n");
    } else {
      markdown := markdown + ("**주제**: " + s.currentTopic + "\n\n");
    }
    assert markdown == Title(s) + Overview(s);
    markdown := markdown + Meta(s, generatedAt);
    ghost var head := markdown;
    if isMultiObjective {
      var topicIdx := 0;
      while topicIdx < |s.allTopics|
        invariant topicIdx <= |s.allTopics|
        invariant markdown == head + Concat(TopicSections(s)[..topicIdx])
      {
        var section := RenderTopicSection(s, topicIdx);
        assert TopicSections(s)[..topicIdx + 1][..topicIdx] == TopicSections(s)[..topicIdx];
        AppendAssoc(head, Concat(TopicSections(s)[..topicIdx]), section);
        markdown := markdown + section;
        topicIdx := topicIdx + 1;
      }
      assert TopicSections(s)[..topicIdx] == TopicSections(s);
    } else {
      var history := RenderSingleHistory(s.conversationHistory);
      markdown := markdown + history;
    }
    assert markdown == head + Body(s);
    var closing := RenderClosing(s);
    markdown := markdown + closing;
    ConcatFive(Title(s), Overview(s), Meta(s, generatedAt), Body(s), Closing(s));
  }

  // ---------------------------------------------------------------------------
  // What the note shows
  // ---------------------------------------------------------------------------

  /** What occurs in part `j` of the note occurs in the note. */
  lemma InPart(s: ConversationState, generatedAt: string, j: nat, p: string, k: int)
    requires j < 5 && OccursAt(NoteParts(s, generatedAt)[j], p, k)
    ensures OccursAt(Markdown(s, generatedAt), p, |Concat(NoteParts(s, generatedAt)[..j])| + k)
  {
    InConcat(NoteParts(s, generatedAt), j, p, k);
  }

  /** The note starts with its title and ends with its closing banner. */
  lemma MarkdownEnds(s: ConversationState, generatedAt: string)
    ensures OccursAt(Markdown(s, generatedAt), Title(s), 0)
    ensures OccursAt(Markdown(s, generatedAt), Closing(s), |Markdown(s, generatedAt)| - |Closing(s)|)
  {
    var parts := NoteParts(s, generatedAt);
    ConcatOccurs(parts, 0);
    assert parts[..0] == [];
    OccursAsSuffix(Concat(parts[..4]), parts[4]);
  }

  /** The title names the note, with the multi-objective mark exactly for several topics. */
  lemma TitleFacts(s: ConversationState)
    ensures StartsWith(Title(s), NoteTitle)
    ensures MultiObjective(s) ==> StartsWith(Title(s), NoteTitle + MultiObjectiveMark)
    ensures !MultiObjective(s) ==> |NoteTitle| < |Title(s)| && Title(s)[|NoteTitle|] == '\n'
  {
    var mark := if MultiObjective(s) then MultiObjectiveMark else "";
    AppendAssoc(NoteTitle, mark, "\n\n");
    StartsWithAppend(NoteTitle, mark + "\n\n");
    if MultiObjective(s) {
      StartsWithAppend(NoteTitle + MultiObjectiveMark, "\n\n");
    }
  }

  /** The closing banner ends with the farewell. */
  lemma ClosingEnds(s: ConversationState)
    ensures OccursAt(Closing(s), Farewell, |Closing(s)| - |Farewell|)
  {
    OccursAsSuffix(ClosingHeading + Totals(s), Farewell);
  }

  /** The note opens with its title, marked multi-objective exactly when there are several topics, and closes with the farewell. */
  lemma MarkdownFrame(s: ConversationState, generatedAt: string)
    ensures StartsWith(Markdown(s, generatedAt), NoteTitle)
    ensures StartsWith(Markdown(s, generatedAt), NoteTitle + MultiObjectiveMark) <==> MultiObjective(s)
    ensures OccursAt(Markdown(s, generatedAt), Farewell, |Markdown(s, generatedAt)| - |Farewell|)
  {
    MarkdownEnds(s, generatedAt);
    TitleFacts(s);
    ClosingEnds(s);
    assert MultiObjectiveMark[0] == ' ';
    FrameOf(Markdown(s, generatedAt), Title(s), Closing(s), MultiObjective(s));
  }

  /** The frame argument over the parts alone, so that the note's text stays folded. */
  lemma FrameOf(md: string, t: string, c: string, multi: bool)
    requires OccursAt(md, t, 0) && OccursAt(md, c, |md| - |c|)
    requires StartsWith(t, NoteTitle)
    requires multi ==> StartsWith(t, NoteTitle + MultiObjectiveMark)
    requires !multi ==> |NoteTitle| < |t| && t[|NoteTitle|] == '\n'
    requires MultiObjectiveMark[0] == ' '
    requires OccursAt(c, Farewell, |c| - |Farewell|)
    ensures StartsWith(md, NoteTitle)
    ensures StartsWith(md, NoteTitle + MultiObjectiveMark) <==> multi
    ensures OccursAt(md, Farewell, |md| - |Farewell|)
  {
    StartsWithin(md, t, NoteTitle);
    if multi {
      StartsWithin(md, t, NoteTitle + MultiObjectiveMark);
    } else {
      assert (NoteTitle + MultiObjectiveMark)[|NoteTitle|] == ' ';
      DiffersWithin(md, t, NoteTitle + MultiObjectiveMark, |NoteTitle|);
    }
    OccursWithin(md, c, Farewell, |md| - |c|, |c| - |Farewell|);
  }

  /** Each topic of a multi-topic note is listed with its number and a mark: done before the cursor, in progress on it, pending after it. */
  lemma MarkdownStatus(s: ConversationState, generatedAt: string, i: nat)
    requires MultiObjective(s) && i < |s.allTopics|
    ensures i < s.currentTopicIndex ==> Occurs(Markdown(s, generatedAt), NatToString(i + 1) + ". " + "✅" + " " + s.allTopics[i] + "\n")
    ensures i == s.currentTopicIndex ==> Occurs(Markdown(s, generatedAt), NatToString(i + 1) + ". " + "🔄" + " " + s.allTopics[i] + "\n")
    ensures i > s.currentTopicIndex ==> Occurs(Markdown(s, generatedAt), NatToString(i + 1) + ". " + "⏳" + " " + s.allTopics[i] + "\n")
  {
    StatusLineInNote(s, generatedAt, i);
  }

  lemma StatusLineInNote(s: ConversationState, generatedAt: string, i: nat)
    requires MultiObjective(s) && i < |s.allTopics|
    ensures Occurs(Markdown(s, generatedAt), StatusLine(s, i))
  {
    var lines := StatusLines(s);
    ConcatOccurs(lines, i);
    var k := |Concat(lines[..i])|;
    OccursInConcat(TopicListHeading, Concat(lines), "\n", lines[i], k);
    assert Overview(s) == TopicListHeading + Concat(lines) + "\n";
    InOverview(s, generatedAt, lines[i], |TopicListHeading| + k);
  }

  lemma InOverview(s: ConversationState, generatedAt: string, p: string, k: int)
    requires OccursAt(Overview(s), p, k)
    ensures Occurs(Markdown(s, generatedAt), p)
  {
    InPart(s, generatedAt, 1, p, k);
  }

  /** The closing banner lists topic `i` with the first 100 characters of its summary, or the placeholder. */
  lemma BannerInClosing(s: ConversationState, i: nat)
    requires MultiObjective(s) && i < |s.allTopics|
    ensures Occurs(Closing(s), BannerLine(s, i))
  {
    BannerInTotals(s, i);
    var k :| OccursAt(Totals(s), BannerLine(s, i), k);
    OccursInMiddle(ClosingHeading, Totals(s), Farewell);
    OccursWithin(Closing(s), Totals(s), BannerLine(s, i), |ClosingHeading|, k);
  }

  lemma BannerInTotals(s: ConversationState, i: nat)
    requires MultiObjective(s) && i < |s.allTopics|
    ensures Occurs(Totals(s), BannerLine(s, i))
  {
    var lines := BannerLines(s);
    var intro := BannerIntro(s);
    ConcatOccurs(lines, i);
    var k := |Concat(lines[..i])|;
    OccursAsSuffix(intro, Concat(lines));
    OccursWithin(intro + Concat(lines), Concat(lines), lines[i], |intro|, k);
  }

  /** The closing banner of a multi-topic note lists every topic with the first 100 characters of its summary, or a placeholder when it has none. */
  lemma MarkdownBanner(s: ConversationState, generatedAt: string, i: nat)
    requires MultiObjective(s) && i < |s.allTopics|
    ensures var topic := s.allTopics[i];
            HasStoredIS(s, topic) ==>
              Occurs(Markdown(s, generatedAt), NatToString(i + 1) + ". **" + topic + "**: " + Prefix(s.topicISHistory[topic], 100) + "...\n")
    ensures var topic := s.allTopics[i];
            !HasStoredIS(s, topic) ==>
              Occurs(Markdown(s, generatedAt), NatToString(i + 1) + ". **" + topic + "**: " + NoSummary + "...\n")
  {
    BannerInClosing(s, i);
    var k :| OccursAt(Closing(s), BannerLine(s, i), k);
    InPart(s, generatedAt, 4, BannerLine(s, i), k);
    assert Prefix(NoSummary, 100) == NoSummary;
  }

  /** The section of topic `i` shows its stored summary between IS tags. */
  lemma ISInSection(s: ConversationState, i: nat)
    requires i < |s.allTopics| && HasStoredIS(s, s.allTopics[i])
    ensures Occurs(TopicSection(s, i), "<IS>" + s.topicISHistory[s.allTopics[i]] + "</IS>\n\n")
  {
    var topic := s.allTopics[i];
    var block := "<IS>" + s.topicISHistory[topic] + "</IS>\n\n";
    var heading, isBlock := SectionHeading(i, topic), ISBlock(s, topic);
    var history := TopicHistory(s.conversationHistory, topic, 0, 1);
    OccursAsSuffix("### ✅ 최종 이해 요약\n\n", block);
    OccursAsSuffix(heading, isBlock);
    OccursWithin(heading + isBlock, isBlock, block, |heading|, |isBlock| - |block|);
    OccursAsPrefix(heading + isBlock, history);
    OccursAsPrefix(heading + isBlock + history, Rule);
    OccursWithin(heading + isBlock + history, heading + isBlock, block, 0, |heading| + |isBlock| - |block|);
    OccursWithin(TopicSection(s, i), heading + isBlock + history, block, 0, |heading| + |isBlock| - |block|);
  }

  /** What occurs in a topic's section occurs in a multi-topic note. */
  lemma InSection(s: ConversationState, generatedAt: string, i: nat, p: string)
    requires MultiObjective(s) && i < |s.allTopics| && Occurs(TopicSection(s, i), p)
    ensures Occurs(Markdown(s, generatedAt), p)
  {
    var k :| OccursAt(TopicSection(s, i), p, k);
    var sections := TopicSections(s);
    ConcatOccurs(sections, i);
    var j := |Concat(sections[..i])|;
    OccursWithin(Concat(sections), sections[i], p, j, k);
    InPart(s, generatedAt, 3, p, j + k);
  }

  /** A multi-topic note shows the stored summary of every topic that has one, between IS tags. */
  lemma MarkdownTopicIS(s: ConversationState, generatedAt: string, i: nat)
    requires MultiObjective(s) && i < |s.allTopics| && HasStoredIS(s, s.allTopics[i])
    ensures Occurs(Markdown(s, generatedAt), "<IS>" + s.topicISHistory[s.allTopics[i]] + "</IS>\n\n")
  {
    ISInSection(s, i);
    InSection(s, generatedAt, i, "<IS>" + s.topicISHistory[s.allTopics[i]] + "</IS>\n\n");
  }

  // ---------------------------------------------------------------------------
  // The turns a note shows
  // ---------------------------------------------------------------------------

  /** The step number a single-topic note gives turn `j`: one more than the feedback turns before it that answer an IS. */
  function StepsBefore(h: seq<Message>, j: nat): nat
    requires j <= |h|
  {
    if j == 0 then 1 else StepsBefore(h, j - 1) + (if AnswersIS(h, j - 1) then 1 else 0)
  }

  /** The step number the section of `topic` gives turn `j`: one more than the feedback turns before it that mention the topic. */
  function TopicStepsBefore(h: seq<Message>, topic: string, j: nat): nat
    requires j <= |h|
  {
    if j == 0 then 1 else TopicNextStep(h[j - 1], topic, TopicStepsBefore(h, topic, j - 1))
  }

  /** Every turn from `i` on appears in the history, numbered by the steps before it. */
  lemma {:induction false} SingleHistoryShows(h: seq<Message>, i: nat, j: nat)
    requires i <= j < |h|
    ensures Occurs(SingleHistory(h, i, StepsBefore(h, i)), SingleTurn(h[j], StepsBefore(h, j)))
    decreases j - i
  {
    var step := StepsBefore(h, i);
    var turn := SingleTurn(h[i], step);
    var rest := SingleHistory(h, i + 1, SingleNextStep(h, i, step));
    assert SingleNextStep(h, i, step) == StepsBefore(h, i + 1);
    if i == j {
      OccursAsPrefix(turn, rest);
    } else {
      SingleHistoryShows(h, i + 1, j);
      var k :| OccursAt(rest, SingleTurn(h[j], StepsBefore(h, j)), k);
      OccursAsSuffix(turn, rest);
      OccursWithin(turn + rest, rest, SingleTurn(h[j], StepsBefore(h, j)), |turn|, k);
    }
  }

  /** Every turn from `i` on that mentions `topic` appears in the topic's history, numbered by the steps before it. */
  lemma {:induction false} TopicHistoryShows(h: seq<Message>, topic: string, i: nat, j: nat)
    requires i <= j < |h|
    ensures Occurs(TopicHistory(h, topic, i, TopicStepsBefore(h, topic, i)), TopicTurn(h[j], topic, TopicStepsBefore(h, topic, j)))
    decreases j - i
  {
    var step := TopicStepsBefore(h, topic, i);
    var turn := TopicTurn(h[i], topic, step);
    var rest := TopicHistory(h, topic, i + 1, TopicNextStep(h[i], topic, step));
    if i == j {
      OccursAsPrefix(turn, rest);
    } else {
      TopicHistoryShows(h, topic, i + 1, j);
      var k :| OccursAt(rest, TopicTurn(h[j], topic, TopicStepsBefore(h, topic, j)), k);
      OccursAsSuffix(turn, rest);
      OccursWithin(turn + rest, rest, TopicTurn(h[j], topic, TopicStepsBefore(h, topic, j)), |turn|, k);
    }
  }

  /**
   * A single-topic note shows every user and feedback turn. A user turn with an IS is
   * headed by its step number, one more than the feedback turns before it that answer
   * an IS; a user turn without one is shown as a question.
   */
  lemma MarkdownSingleTurn(s: ConversationState, generatedAt: string, j: nat)
    requires !MultiObjective(s) && j < |s.conversationHistory|
    ensures var m := s.conversationHistory[j];
            var step := StepsBefore(s.conversationHistory, j);
            && (m.role == User && HasIS(m.content) ==>
                  Occurs(Markdown(s, generatedAt), "## 📝 Step " + NatToString(step) + ": 나의 이해\n\n" + m.content + "\n\n"))
            && (m.role == User && !HasIS(m.content) ==>
                  Occurs(Markdown(s, generatedAt), "### 💬 질문/응답\n\n" + m.content + "\n\n"))
            && (m.role == Assistant ==>
                  Occurs(Markdown(s, generatedAt), "### 🤖 AI 피드백\n\n" + m.content + "\n\n" + Rule))
  {
    var h := s.conversationHistory;
    SingleHistoryShows(h, 0, j);
    var turn := SingleTurn(h[j], StepsBefore(h, j));
    var k :| OccursAt(SingleHistory(h, 0, 1), turn, k);
    InPart(s, generatedAt, 3, turn, k);
  }

  /**
   * A multi-topic note shows, in the section of each topic, every feedback turn that
   * mentions the topic, and every user turn that mentions it and carries an IS, headed
   * by its step number: one more than the feedback turns before it that mention the topic.
   */
  lemma MarkdownTopicTurn(s: ConversationState, generatedAt: string, i: nat, j: nat)
    requires MultiObjective(s) && i < |s.allTopics| && j < |s.conversationHistory|
    requires Contains(s.conversationHistory[j].content, s.allTopics[i])
    ensures var m := s.conversationHistory[j];
            var step := TopicStepsBefore(s.conversationHistory, s.allTopics[i], j);
            && (m.role == User && HasIS(m.content) ==>
                  Occurs(Markdown(s, generatedAt), "#### Step " + NatToString(step) + ": 나의 이해\n\n" + m.content + "\n\n"))
            && (m.role == Assistant ==>
                  Occurs(Markdown(s, generatedAt), "**AI 피드백**:\n\n" + m.content + "\n\n"))
  {
    var h, topic := s.conversationHistory, s.allTopics[i];
    TopicHistoryShows(h, topic, 0, j);
    var turn := TopicTurn(h[j], topic, TopicStepsBefore(h, topic, j));
    var history := TopicHistory(h, topic, 0, 1);
    var k :| OccursAt(history, turn, k);
    var head := SectionHeading(i, topic) + ISBlock(s, topic);
    OccursInMiddle(head, history, Rule);
    OccursWithin(TopicSection(s, i), history, turn, |head|, k);
    InSection(s, generatedAt, i, turn);
  }
}
