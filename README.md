# Rust tutor backend: sessions, prompts, study notes and response cleaning

This project models the core of a Korean-language Rust tutoring backend and proves
properties of that model in Dafny.

**Context manager.** A NestJS service keeps, per learner, a tutoring session in an
in-memory map. A session has:
- an ordered list of topics, with a cursor on the current one;
- the learner's current understanding summary (the "IS", written between `<IS>` tags);
- the summaries recorded for the topics already left;
- an append-only conversation history, a step count and a role-play switch.

The controller starts a session and asks the language model to explain the first
topic. It moves the cursor to the next topic with a transition tip, toggles role play,
and exports a markdown study note with a sanitised file name.

**Chat turn.** Each turn proceeds in order:
1. records the learner's message and takes its summary;
2. builds the evaluation prompt from the session as it is then;
3. answers, with a development scenario when role play is on, the message asks how or
   when something is used, and it carries no summary;
4. records the reply.

**Response cleaner.** A separate set of string transforms removes CJK ideographs from
model replies while protecting fenced and inline code. It normalises whitespace,
cleans paragraph by paragraph, decides whether to retry and scores a reply's quality.

**Modules:**

| Module | File | What it holds |
|---|---|---|
| `Wrappers` | `wrappers.dfy` | `Option`, `Result` |
| `Text` | `text.dfy` | substring search, `split`/`join`, `trim`, decimal rendering, lower-casing |
| `ConversationTypes` | `conversation_types.dfy` | the session record and the messages |
| `Session` | `session.dfy` | the steps each call takes on one session, the progress report, the summary of earlier topics and the two prompts, with their properties |
| `StudyNotes` | `study_notes.dfy` | the markdown note, as a function and as the loops that build it, with what the note is proved to show |
| `ContextManager` | `context_manager.dfy` | the class holding the session map; every method changes exactly the entry of its user, by the matching step of `Session` |
| `RustLearn` | `rust_learn_service.dfy` | the trigger classifier, the scenario prompt, the tip and one chat turn |
| `Controller` | `rust_learn_controller.dfy` | the file name sanitiser, the transition table and the four request handlers |
| `ResponseCleaner` | `response_cleaner.dfy` | the cleaner; `removeChinese` is modelled twice: as written, with its placeholders and string replacement, and as what it is meant to do |

Strings are `seq<char>`, one element per UTF-16 code unit. The language model is a
parameter: a total function from a prompt to `Replied(text)` or `Failed(message)`.
Clock readings are opaque parameters.

## Model

| member | source | states |
|---|---|---|
| ContextManager.ContextManagerService.InitSession | backend/src/modules/context-manager/context-manager.service.ts:12-26 | the user's entry, new or replaced, is the initial session of the topic list; every other entry is unchanged; every session stays well formed |
| Session.InitialState | backend/src/modules/context-manager/context-manager.service.ts:15-25 | a fresh session has its cursor on the first topic and satisfies the session invariant |
| ContextManager.ContextManagerService.GetState | backend/src/modules/context-manager/context-manager.service.ts:254-256 | a session is found exactly for a known user; it is the stored one and it is well formed |
| ContextManager.ContextManagerService.MoveToNextTopic | backend/src/modules/context-manager/context-manager.service.ts:28-44 | an unknown user gets the not-found error and nothing changes; otherwise the answer is whether a later topic exists, and only that user's session changes, by the move step |
| Session.MoveAdvances | backend/src/modules/context-manager/context-manager.service.ts:36-40 | with a later topic, the cursor advances by exactly one onto the next topic and the IS is cleared; the topic list and the invariant are kept |
| Session.MoveAtLastTopic | backend/src/modules/context-manager/context-manager.service.ts:36-43 | on the last topic, the cursor, the topic and the IS stay as they were |
| Session.MoveRecordsIS | backend/src/modules/context-manager/context-manager.service.ts:32-34 | the vacated topic's IS is recorded, overwriting any earlier record, exactly when the IS is non-empty; history and step count are untouched |
| Session.MoveTwiceKeepsRecord | backend/src/modules/context-manager/context-manager.service.ts:32-39 | a second move leaves the record of summaries as the first move left it |
| ContextManager.ContextManagerService.GetPreviousTopicsSummary | backend/src/modules/context-manager/context-manager.service.ts:46-69 | the loop builds the summary that `Session.TopicsSummary` defines; an unknown user gets the empty text |
| Session.TopicsSummaryFrame | backend/src/modules/context-manager/context-manager.service.ts:48-66 | the summary is empty exactly on the first topic; otherwise it opens with its header and ends with the lines linking the previous topic to the current one |
| Session.TopicsSummaryLists | backend/src/modules/context-manager/context-manager.service.ts:51-57 | every earlier topic with a stored summary appears with that summary, right after the header and the entries of the topics before it |
| Session.TopicsSummaryOrder | backend/src/modules/context-manager/context-manager.service.ts:51-57 | the entries come in topic order: each ends before any later topic's entry starts |
| ContextManager.ContextManagerService.ToggleRolePlayMode | backend/src/modules/context-manager/context-manager.service.ts:71-77 | an unknown user gets the not-found error and nothing changes; otherwise the answer is the negated old mode, and only that user's session changes |
| Session.ToggleTwice | backend/src/modules/context-manager/context-manager.service.ts:71-77 | the toggle always flips the mode, and toggling twice restores the session |
| ContextManager.ContextManagerService.GetProgress | backend/src/modules/context-manager/context-manager.service.ts:79-89 | the report is absent exactly for an unknown user; it names the current topic and index, with index < total == number of topics, and the completed topics are exactly those before the cursor |
| Session.ProgressFacts | backend/src/modules/context-manager/context-manager.service.ts:83-88 | the completed topics number the current index, and with the current topic appended they are the plan up to the cursor |
| ContextManager.ContextManagerService.BuildInitialTopicPrompt | backend/src/modules/context-manager/context-manager.service.ts:91-128 | an unknown user gets the start-first error; a known one gets the two-message prompt `Session.InitialTopicPrompt` defines |
| Session.InitialPromptContents | backend/src/modules/context-manager/context-manager.service.ts:100-125 | the system message names the topic inside the fixed rules; it carries the earlier topics' summary without its two leading line feeds, exactly when the cursor is past the first topic |
| ContextManager.ContextManagerService.BuildPrompt | backend/src/modules/context-manager/context-manager.service.ts:130-220 | an unknown user gets the start-first error; a known one gets exactly a system message followed by the learner's message verbatim |
| Session.EvaluationCueChoice | backend/src/modules/context-manager/context-manager.service.ts:194-199 | the tutor is told to move on exactly when there are several topics and this is not the last; otherwise it is told to congratulate on completion |
| Session.PromptOpening | backend/src/modules/context-manager/context-manager.service.ts:184-202 | the system message opens with the rules and the chosen cue; with role play off it is nothing more, when there is a single topic or the cursor is on the first |
| Session.PromptRolePlay | backend/src/modules/context-manager/context-manager.service.ts:144-180 | with role play on, the role-play instruction follows the rules directly |
| Session.PromptCarriesSummary | backend/src/modules/context-manager/context-manager.service.ts:202-211 | with several topics and the cursor past the first, the earlier topics' summary is part of the system message |
| ContextManager.ContextManagerService.ExtractAndSaveIS | backend/src/modules/context-manager/context-manager.service.ts:222-240 | an unknown user gets false and nothing changes; otherwise the answer is whether the message holds an IS block, and only that user's session changes, by the extract step |
| Session.MatchIS | backend/src/modules/context-manager/context-manager.service.ts:223 | a body is found exactly when case-insensitive opening and closing tags occur in that order, and the body is the text right after the opening tag |
| Session.ISTags | backend/src/modules/context-manager/context-manager.service.ts:223 | the match is the leftmost opening tag with the first closing tag after it; there is none exactly when no opening tag has a closing tag after it |
| Session.ExtractEffect | backend/src/modules/context-manager/context-manager.service.ts:228-237 | a match sets the trimmed body as the IS and adds one step; without a match both stay; in either case exactly one user turn is appended and the invariant is kept |
| ContextManager.ContextManagerService.SaveAIResponse | backend/src/modules/context-manager/context-manager.service.ts:242-252 | an unknown user changes nothing; otherwise the reply becomes the last response and one assistant turn is appended |
| Session.SessionInvariants | backend/src/modules/context-manager/context-manager.service.ts:28-252 | for any sequence of calls on a session, the topic list and the invariant are kept; neither the cursor nor the step count ever decreases; the history only grows at its end; no recorded topic is dropped |
| ContextManager.ContextManagerService.GenerateMarkdown | backend/src/modules/context-manager/context-manager.service.ts:258-364 | an unknown user gets the not-found error; a known one gets the note `StudyNotes.Markdown` defines |
| StudyNotes.RenderMarkdown | backend/src/modules/context-manager/context-manager.service.ts:265-363 | the text the appending loops build is the note as the concatenation of title, overview, meta, body and closing |
| StudyNotes.RenderTopicList | backend/src/modules/context-manager/context-manager.service.ts:270-278 | the forEach builds one status line per topic, in order |
| StudyNotes.RenderTopicSection | backend/src/modules/context-manager/context-manager.service.ts:289-316 | the loop builds a topic's section, with the step counter advancing on feedback turns that mention the topic |
| StudyNotes.RenderSingleHistory | backend/src/modules/context-manager/context-manager.service.ts:319-345 | the loop builds a single-topic history, with the step counter advancing on feedback that answers an IS |
| StudyNotes.RenderBanner | backend/src/modules/context-manager/context-manager.service.ts:353-356 | the forEach builds one banner line per topic, in order |
| StudyNotes.RenderClosing | backend/src/modules/context-manager/context-manager.service.ts:348-361 | the closing is the heading, the totals and the farewell |
| StudyNotes.MarkdownFrame | backend/src/modules/context-manager/context-manager.service.ts:265-361 | the note opens with its title, carrying the multi-objective mark exactly when there are several topics, and ends with the farewell |
| StudyNotes.MarkdownStatus | backend/src/modules/context-manager/context-manager.service.ts:270-278 | in a multi-topic note each topic is listed with its number and ✅ before the cursor, 🔄 on it and ⏳ after it |
| StudyNotes.MarkdownTopicIS | backend/src/modules/context-manager/context-manager.service.ts:292-296 | a multi-topic note shows the stored summary of every topic that has one, between IS tags |
| StudyNotes.MarkdownTopicTurn | backend/src/modules/context-manager/context-manager.service.ts:298-314 | each topic's section shows every feedback turn that mentions the topic, and every such user turn with an IS under its step number: one more than the topic's feedback turns before it |
| StudyNotes.MarkdownSingleTurn | backend/src/modules/context-manager/context-manager.service.ts:319-345 | a single-topic note shows every user and feedback turn; a user turn with an IS is headed by its step number, one more than the feedback turns before it that answer an IS; one without is shown as a question |
| StudyNotes.SingleHistoryShows | backend/src/modules/context-manager/context-manager.service.ts:320-345 | every turn from a given point on appears in the rendered history, numbered by the steps before it |
| StudyNotes.TopicHistoryShows | backend/src/modules/context-manager/context-manager.service.ts:299-314 | every turn from a given point on appears in the topic's history, numbered by the topic's steps before it |
| StudyNotes.MarkdownBanner | backend/src/modules/context-manager/context-manager.service.ts:353-356 | the closing banner lists every topic with the first 100 code units of its summary, or the no-summary placeholder |
| RustLearn.ContainsAny | backend/src/modules/rust-learn/rust-learn.service.ts:14 | true exactly when some keyword occurs in the message |
| RustLearn.TriggerKeywords | backend/src/modules/rust-learn/rust-learn.service.ts:12-15 | the ten-keyword test is equivalent to testing the six keywords that do not extend a shorter one |
| RustLearn.ScenarioPrompt | backend/src/modules/rust-learn/rust-learn.service.ts:63-98 | exactly a system and a user message, each naming the current topic at its fixed place |
| RustLearn.RustLearnService.GenerateRolePlayScenario | backend/src/modules/rust-learn/rust-learn.service.ts:59-106 | an unknown user gets the fixed not-found text; otherwise the model's scenario, or the fixed error text when the model fails |
| RustLearn.TipChoice | backend/src/modules/rust-learn/rust-learn.service.ts:49-53 | no IS gives the ask-for-summary tip; an IS gives the next-topic tip exactly when a later topic exists, and the all-done tip otherwise |
| RustLearn.TipAgreesWithPrompt | backend/src/modules/rust-learn/rust-learn.service.ts:49-53 | after an IS, the tip offers the next topic exactly when the prompt tells the tutor to move on |
| RustLearn.ChatTurnRecords | backend/src/modules/rust-learn/rust-learn.service.ts:17-57 | a completed turn appends exactly the learner's turn and then the reply; it adds a step exactly when the message held an IS and reports the new count as the current step; the cursor, the topic list, the summaries and the mode are unchanged |
| RustLearn.ChatTurnReply | backend/src/modules/rust-learn/rust-learn.service.ts:19-36 | when role play is on, the message is a trigger and it holds no IS, the reply is the scenario; otherwise a successful turn answers with the model's reply to the prompt built after the extraction; the reported mode is the session's |
| RustLearn.ChatTurnFailure | backend/src/modules/rust-learn/rust-learn.service.ts:31-39 | a failed turn is a failed model call on the evaluation prompt; the learner's turn stays recorded and no reply is saved |
| RustLearn.RustLearnService.Chat | backend/src/modules/rust-learn/rust-learn.service.ts:17-57 | an unknown user gets the start-first error and nothing changes; otherwise the answer and the new session are those of one chat turn, and only that user's entry changes |
| Controller.ReplaceDisallowed | backend/src/modules/rust-learn/rust-learn.controller.ts:179 | every character outside `[a-zA-Z0-9_-]` becomes '-' and every other stays; the length is kept |
| Controller.CollapseDashes | backend/src/modules/rust-learn/rust-learn.controller.ts:180 | no two '-' in a row remain; the first character and the allowed alphabet are kept; text without a double dash is unchanged |
| Controller.SanitizeShape | backend/src/modules/rust-learn/rust-learn.controller.ts:178-181 | the sanitised name is non-empty, uses only `[a-z0-9_-]`, has no double dash, is no longer than a non-empty topic, and is the fallback name for an empty topic |
| Controller.SanitizeDefault | backend/src/modules/rust-learn/rust-learn.controller.ts:178 | an empty topic gives `rust-study` |
| Controller.SanitizeIdempotent | backend/src/modules/rust-learn/rust-learn.controller.ts:178-181 | sanitising a sanitised name changes nothing |
| Controller.ExportFilenameFrame | backend/src/modules/rust-learn/rust-learn.controller.ts:182 | the file name starts with `rust-study-`, the sanitised topic and '-', and ends with `.md` |
| Controller.ExportFilenameChars | backend/src/modules/rust-learn/rust-learn.controller.ts:178-182 | the file name uses only `[a-z0-9_.-]` |
| Controller.TransitionKnown | backend/src/modules/rust-learn/rust-learn.controller.ts:130-142 | the table has entries exactly for its four pairs, and each of them gets its own text |
| Controller.TransitionFallback | backend/src/modules/rust-learn/rust-learn.controller.ts:142-143 | any other pair gets the generic text, which names the previous topic first and the next one after it |
| Controller.StartMessageNamesTopics | backend/src/modules/rust-learn/rust-learn.controller.ts:50-52 | the start message names every topic of the plan |
| Controller.RustLearnController.Explain | backend/src/modules/rust-learn/rust-learn.controller.ts:36-46 | the explanation is the model's reply to the initial topic prompt, saved as a reply, or the fallback text with the session unchanged when the model fails |
| Controller.RustLearnController.StartLearning | backend/src/modules/rust-learn/rust-learn.controller.ts:24-60 | a single topic becomes a one-element plan; the session is created and given the explanation; the response always succeeds, is multi-objective exactly for several topics and counts the topics |
| Controller.RustLearnController.NextTopic | backend/src/modules/rust-learn/rust-learn.controller.ts:78-128 | an unknown user gets the not-found error; with a later topic, success with the move message, the explanation, the transition tip and the new progress; on the last topic, the completion message with the progress and only the summary recorded |
| Controller.RustLearnController.ToggleRoleplay | backend/src/modules/rust-learn/rust-learn.controller.ts:146-166 | an unknown user gets the not-found error; otherwise the new mode with the message for it, and the session toggled |
| Controller.RustLearnController.ExportMarkdown | backend/src/modules/rust-learn/rust-learn.controller.ts:168-197 | an unknown user gets the not-found error; otherwise the study note under the sanitised file name |
| ResponseCleaner.AnalyzeLanguageContent | backend/src/modules/qwen/response-cleaner.ts:37-51 | the total is the length; Korean plus CJK counts never exceed it; each count is zero exactly when no character of its class occurs |
| ResponseCleaner.ScriptCountsBounded | backend/src/modules/qwen/response-cleaner.ts:17-22 | the Korean and the CJK counts add up to at most the length, the two classes being disjoint |
| ResponseCleaner.FenceAtFirstMatch | backend/src/modules/qwen/response-cleaner.ts:27 | the fence found is the leftmost one with the nearest closing fence after it; none is found exactly when no fence has a later one |
| ResponseCleaner.FlattenFencePieces | backend/src/modules/qwen/response-cleaner.ts:60-63 | cutting out the fenced blocks loses and reorders nothing |
| ResponseCleaner.FlattenInlinePieces | backend/src/modules/qwen/response-cleaner.ts:67-70 | cutting out the inline spans loses and reorders nothing |
| ResponseCleaner.RemoveChineseProtectsCode | backend/src/modules/qwen/response-cleaner.ts:57-89 | for the corrected cleaner: every protected block and span comes out in order and unchanged; every piece of the output sits where its prefix puts it; no CJK ideograph remains outside code; the CJK count never grows; text without CJK is returned as it is |
| ResponseCleaner.RemoveChineseAsWritten | backend/src/modules/qwen/response-cleaner.ts:57-89 | the placeholder loops compute the as-written function, with `String.prototype.replace` substituting `$` patterns in the restored code |
| ResponseCleaner.DollarWritten | backend/src/modules/qwen/response-cleaner.ts:76-81 | as written, the inline span `` `$$` `` comes back as `` `$` `` |
| ResponseCleaner.DollarCorrected | backend/src/modules/qwen/response-cleaner.ts:57-89 | the corrected cleaner returns `` `$$` `` unchanged |
| ResponseCleaner.BacktickWritten | backend/src/modules/qwen/response-cleaner.ts:84-86 | as written, restoring the block ```` ```$` ``` ```` after the span `` `中` `` copies the text in front of the placeholder into the block, so the input's one CJK ideograph becomes two |
| ResponseCleaner.BacktickCorrected | backend/src/modules/qwen/response-cleaner.ts:57-89 | the corrected cleaner returns that same input unchanged |
| ResponseCleaner.CollapseBlankLinesIdempotent | backend/src/modules/qwen/response-cleaner.ts:98 | the output has no three line feeds in a row, so collapsing again changes nothing |
| ResponseCleaner.CleanWhitespace | backend/src/modules/qwen/response-cleaner.ts:94-104 | the output is no longer than the input, starts and ends with no white space, and has no line ending in a space or tab |
| ResponseCleaner.CleanWhitespaceKeepsScripts | backend/src/modules/qwen/response-cleaner.ts:94-104 | the whitespace cleanup keeps the CJK and the Korean counts |
| ResponseCleaner.CleanParagraph | backend/src/modules/qwen/response-cleaner.ts:130-139 | a paragraph without CJK passes verbatim; with the corrected cleaner, the CJK count never grows |
| ResponseCleaner.CleanParagraphWiseNonBlank | backend/src/modules/qwen/response-cleaner.ts:140 | every paragraph kept holds something other than white space |
| ResponseCleaner.FilterKeepsOrder | backend/src/modules/qwen/response-cleaner.ts:140 | the kept paragraphs keep their original order |
| ResponseCleaner.FilterKeepsAccepted | backend/src/modules/qwen/response-cleaner.ts:140 | every paragraph that passes the test is kept |
| ResponseCleaner.FilterPositions | backend/src/modules/qwen/response-cleaner.ts:140 | each kept paragraph is the input paragraph at its recorded position |
| ResponseCleaner.CleanParagraphWiseCount | backend/src/modules/qwen/response-cleaner.ts:126-143 | with the corrected cleaner, cleaning by paragraph never increases the CJK count |
| ResponseCleaner.CleanParagraphWiseIdentity | backend/src/modules/qwen/response-cleaner.ts:126-143 | text without CJK and without blank paragraphs comes back unchanged |
| ResponseCleaner.Clean | backend/src/modules/qwen/response-cleaner.ts:157-175 | the reported count is the CJK count of the cleaned text, at most the input's with the corrected cleaner; the CJK flag holds exactly when a CJK ideograph remains; the cleaned text is trimmed and has no blank at a line end |
| ResponseCleaner.ShouldRetry | backend/src/modules/qwen/response-cleaner.ts:148-152 | retry exactly when the CJK ideographs are strictly more than a tenth of the length |
| ResponseCleaner.ShouldRetryThreshold | backend/src/modules/qwen/response-cleaner.ts:148-152 | at an exact percentage, retry happens exactly above 10%: so at 15% yes, at 5% and at exactly 10% no |
| ResponseCleaner.GetQualityScore | backend/src/modules/qwen/response-cleaner.ts:181-213 | the score is 100 minus the three deductions and lies in [35, 100]; the issue list holds exactly one message per deduction, in the order CJK, Hangul, length, and the score is 100 exactly when it is empty |

## Left out

- I/O: HTTP is left out, except that each error a handler throws is its `Err` value. The `HttpException` mapping, response headers, `res.send`, the chat route (`rust-learn.controller.ts:62-76`) and the health check are not part of this model.
- The language model client (`qwen.service.ts`) is not part of this model. It is a total function parameter, deterministic for a given prompt, so asynchrony and timeouts are not modelled.
- Clocks and locale: `new Date()`, `Date.now()` and `toLocaleString('ko-KR')` are opaque parameters.
- `calculatePurity`, the `confidence` field of `clean` and `getDetailedReport` are left out: they compute floating-point ratios and format text for debugging.
- Strings are sequences of UTF-16 code units. Emoji and other characters beyond the BMP are single characters here, so `substring(0, 100)` and `text.length` count differently when they occur.
- `ContextManager.ContextManagerService.InitSession`, `Controller.RustLearnController.StartLearning`: require a non-empty topic list. The source would store a session whose `currentTopic` is `undefined`.
- `getState` hands out the stored object by reference. Sessions here are values, so aliasing is not modelled; no caller mutates the returned object.
- `buildPrompt` computes a progress string it never uses; the model leaves it out.
- The transition table is a plain map. A lookup through inherited `Object.prototype` names, such as a previous topic named `constructor`, is not modelled.
- The persistence layer (TypeORM entities and repositories) is not part of this model; the service never uses it.
- Concurrency: the service runs on one thread.
- `RustLearn.ChatTurn`: the `|| 0` fallback for `currentStep` is unreachable because the session exists; the step count is reported directly.
- `ResponseCleaner.RemoveChinese`: the corrected cleaner works on pieces, not placeholders. Input text that already contains a literal `__INLINE_CODE_n__` or `__CODE_BLOCK_n__` is therefore not confused with a placeholder. The as-written member `RemoveChineseWritten` keeps the placeholders.
- `ResponseCleaner.CleanParagraph`: cleans a paragraph with the corrected `RemoveChinese`, not with the as-written placeholder version that `cleanParagraphWise` calls at `response-cleaner.ts:135`. Its CJK bound therefore holds only for the corrected cleaner; `BacktickWritten` shows an input whose count the as-written one raises from 1 to 2.
- `ResponseCleaner.CleanParagraphWise`: built on `CleanParagraph`, so it uses the corrected cleaner. On that same input the source's `cleanParagraphWise` returns two CJK ideographs where the input held one.
- `ResponseCleaner.CleanParagraphWiseCount`: "never increases the CJK count" is proved of the corrected cleaner only. The source breaks it through the `$` expansion in the restore steps (`response-cleaner.ts:76-86`).
- `ResponseCleaner.Clean`: reports at most the input's CJK count only because it cleans with the corrected cleaner. The source's `clean` reports a `chineseCharCount` of 2 for the input of `BacktickWritten`, which holds 1.
- `ResponseCleaner.ShouldRetry`: the float product `totalCharCount * 0.1` is compared exactly, as a real number.
- `StudyNotes.HasIS`, `Session.MatchIS`: the `i` flag is modelled as ASCII case folding of the tag letters, which is all it changes for `<IS>`.

## Findings

| source | as written | input that shows it | evidently intended | confidence | as-written member | corrected member |
|---|---|---|---|---|---|---|
| backend/src/modules/qwen/response-cleaner.ts:76-81 | restoring an inline span calls `replace` with the span as the replacement string, so the `$` patterns in it are expanded (`$$` becomes `$`) | a reply holding the inline code `` `$$` `` | code spans come back verbatim | not executed | ResponseCleaner.DollarWritten | ResponseCleaner.DollarCorrected |
| backend/src/modules/qwen/response-cleaner.ts:84-86 | restoring a code block calls `replace` with the block as the replacement string, so a `` $` `` in it becomes the text in front of the placeholder (and `$'` the text after it); a CJK ideograph of an earlier inline span is copied into the block | a reply holding `` `中` ```$` ``` ``, whose one CJK ideograph comes back as two | code blocks come back verbatim and cleaning never adds CJK | not executed | ResponseCleaner.BacktickWritten | ResponseCleaner.BacktickCorrected |
