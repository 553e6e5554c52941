/** The records the context manager keeps per learner and exchanges with its callers. */
module ConversationTypes {

  /** The clock reading a history entry carries (`new Date()`); an opaque value here. */
  type Time = nat

  datatype Role = System | User | Assistant

  /** One turn of the conversation history. */
  datatype Message = Message(role: Role, content: string, timestamp: Time)

  /** One message of a prompt sent to the model. */
  datatype QwenMessage = QwenMessage(role: Role, content: string)

  /**
   * The tutoring session of one learner: the ordered topics with a cursor on the
   * current one, the understanding summary (IS) of the current topic, the summaries
   * recorded for topics already left, the history and the role-play switch.
   */
  datatype ConversationState = ConversationState(
    currentIS: string,
    currentTopic: string,
    allTopics: seq<string>,
    currentTopicIndex: nat,
    topicISHistory: map<string, string>,
    conversationHistory: seq<Message>,
    lastAIResponse: string,
    stepCount: nat,
    rolePlayMode: bool)

  /** What getProgress reports. */
  datatype Progress = Progress(currentTopic: string, currentIndex: nat, totalTopics: nat, completedTopics: seq<string>)

  /** What the model service gives for a prompt: the reply text, or the message of the error it throws. */
  datatype ModelReply = Replied(text: string) | Failed(message: string)

  /** A request's `topics: string | string[]`. */
  datatype Topics = OneTopic(topic: string) | TopicList(topics: seq<string>)

  /** `Array.isArray(topics) ? topics : [topics]` */
  function TopicArray(t: Topics): seq<string>
  {
    match t
    case OneTopic(x) => [x]
    case TopicList(xs) => xs
  }

  /** The file an export hands back. */
  datatype MarkdownExport = MarkdownExport(content: string, filename: string)
}
