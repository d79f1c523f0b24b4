/**
 * The playground page's session state and the handlers that update it: loading
 * the models, submitting a prompt, opening a stream and receiving its chunks,
 * error and completion, deleting messages, and editing a version.
 */
module Playground {
  import opened Wrappers
  import opened Text
  import opened ModelNames
  import opened ThinkSplit
  import opened Conversation
  import opened ChatRequest

  datatype Status = Submitted | Streaming | Ready | Error

  /**
   * The clock readings `sendChatRequest` takes, in the order its `Date.now()` calls
   * run: the user message key, the user version id, the assistant version id and the
   * assistant message key.
   */
  datatype Stamps = Stamps(userKey: nat, userVersion: nat, assistantId: nat, assistantKey: nat)

  function UserKey(t: nat): string { "user-" + Decimal(t) }

  function AssistantKey(t: nat): string { "assistant-" + Decimal(t) }

  /** A user key and an assistant key never coincide, whatever the clock says. */
  lemma UserAndAssistantKeysDiffer(t1: nat, t2: nat)
    ensures UserKey(t1) != AssistantKey(t2)
  {
    assert UserKey(t1)[0] != AssistantKey(t2)[0];
  }

  /** Keys of the same kind are equal only when they come from the same clock reading. */
  lemma KeysInjective(t1: nat, t2: nat)
    ensures UserKey(t1) == UserKey(t2) ==> t1 == t2
    ensures AssistantKey(t1) == AssistantKey(t2) ==> t1 == t2
  {
    if UserKey(t1) == UserKey(t2) {
      assert UserKey(t1)[5..] == Decimal(t1) && UserKey(t2)[5..] == Decimal(t2);
      DecimalInjective(t1, t2);
    }
    if AssistantKey(t1) == AssistantKey(t2) {
      assert AssistantKey(t1)[10..] == Decimal(t1) && AssistantKey(t2)[10..] == Decimal(t2);
      DecimalInjective(t1, t2);
    }
  }

  /** `value || fallback` on an optional string: a missing or empty value falls back. */
  function OrDefault(value: Option<string>, fallback: string): (r: string)
    ensures value.Some? && value.value != "" ==> r == value.value
    ensures value.None? || value.value == "" ==> r == fallback
  {
    if value.Some? && value.value != "" then value.value else fallback
  }

  /** The record a submitted file is shown as under the user message. */
  function ToAttachment(f: FileInput): Attachment {
    Attachment(f.url, OrDefault(f.mediaType, "application/octet-stream"), OrDefault(f.filename, "attachment"))
  }

  function Attachments(files: seq<FileInput>): (r: seq<Attachment>)
    ensures |r| == |files|
  {
    seq(|files|, k requires 0 <= k < |files| => ToAttachment(files[k]))
  }

  /**
   * Every attachment keeps its file's url, media type and file name, with
   * `application/octet-stream` and `attachment` standing in for missing or empty ones;
   * so neither field is ever empty.
   */
  lemma AttachmentsFilled(files: seq<FileInput>, k: nat)
    requires k < |files|
    ensures Attachments(files)[k] == Attachment(files[k].url,
      OrDefault(files[k].mediaType, "application/octet-stream"), OrDefault(files[k].filename, "attachment"))
    ensures Attachments(files)[k].mediaType != "" && Attachments(files)[k].filename != ""
  {
  }

  /** The user message `sendChatRequest` appends. */
  function UserMessage(userContent: string, files: seq<FileInput>, stamps: Stamps): Message {
    Message(UserKey(stamps.userKey), User, [Version(UserKey(stamps.userVersion), userContent, None)],
            if |files| > 0 then Some(Attachments(files)) else None)
  }

  /** The assistant message it appends, with one empty version to be streamed into. */
  function AssistantMessage(stamps: Stamps): Message {
    Message(AssistantKey(stamps.assistantKey), Assistant, [Version(AssistantKey(stamps.assistantId), "", None)], None)
  }

  /**
   * Deleting the new user message keeps the new assistant message and the other way
   * round, since their keys never coincide.
   */
  lemma NewMessagesDeletedApart(prior: seq<Message>, userContent: string, files: seq<FileInput>, stamps: Stamps)
    ensures var u, a := UserMessage(userContent, files, stamps), AssistantMessage(stamps);
      && a in RemoveKey(prior + [u, a], u.key)
      && u in RemoveKey(prior + [u, a], a.key)
  {
    var u, a := UserMessage(userContent, files, stamps), AssistantMessage(stamps);
    UserAndAssistantKeysDiffer(stamps.userKey, stamps.assistantKey);
    assert a in prior + [u, a] && u in prior + [u, a];
    RemoveKeyMembers(prior + [u, a], u.key, a);
    RemoveKeyMembers(prior + [u, a], a.key, u);
  }

  /**
   * The first chunk update after the send reaches the new assistant version, provided
   * no earlier message reuses its id.
   */
  lemma FirstChunkReachesAssistant(prior: seq<Message>, userContent: string, files: seq<FileInput>,
                                   stamps: Stamps, split: Split)
    requires NoVersion(prior, AssistantKey(stamps.assistantId))
    ensures var u, a := UserMessage(userContent, files, stamps), AssistantMessage(stamps);
      ApplyChunk(prior + [u, a], AssistantKey(stamps.assistantId), split) ==
        prior + [u, a.(versions := [Version(AssistantKey(stamps.assistantId), split.content, Some(split.thinking))])]
  {
    var id := AssistantKey(stamps.assistantId);
    var u, a := UserMessage(userContent, files, stamps), AssistantMessage(stamps);
    UserAndAssistantKeysDiffer(stamps.userVersion, stamps.assistantId);
    assert !HasVersion(u, id) by { assert u.versions[0].id != id; }
    assert HasVersion(a, id) by { assert a.versions[0].id == id; }
    var a' := a.(versions := [Version(id, split.content, Some(split.thinking))]);
    var r := ApplyChunk([u, a], id, split);
    assert r[0] == u;
    assert r[1] == a' by {
      assert r[1] == StreamMessage(a, id, split);
      assert StreamMessage(a, id, split).versions[0] == Version(id, split.content, Some(split.thinking));
    }
    assert r == [u, a'];
    ApplyChunkAppend(prior, [u, a], id, split);
    ApplyChunkAbsent(prior, id, split);
  }

  /** A stream opened by `sendChatRequest`; its callbacks update `fullContent` and the session. */
  class StreamSession {
    /** The id of the assistant version the chunks are written to. */
    const assistantMessageId: string
    /** The request the stream was opened with. */
    const request: Request
    /** Everything received so far. */
    var fullContent: string

    constructor (assistantMessageId: string, request: Request)
      ensures this.assistantMessageId == assistantMessageId && this.request == request
      ensures fullContent == ""
    {
      this.assistantMessageId := assistantMessageId;
      this.request := request;
      fullContent := "";
    }

    /**
     * The chunk callback: the chunk is appended to the buffer, the whole buffer is split
     * again, and the assistant version gets that split's content and thinking.
     */
    method OnChunk(chunk: string, session: Session)
      modifies this`fullContent, session`messages
      ensures fullContent == old(fullContent) + chunk
      ensures session.messages == ApplyChunk(old(session.messages), assistantMessageId, SplitBuffer(fullContent))
    {
      fullContent := fullContent + chunk;
      var split := SplitBuffer(fullContent);
      session.messages := ApplyChunk(session.messages, assistantMessageId, split);
    }
  }

  class Session {
    var models: seq<ModelOption>
    var model: string
    var text: string
    var status: Status
    var messages: seq<Message>
    var streamingMessageId: Option<string>
    var editingMessageId: Option<string>
    var editingContent: string

    /** The page's initial state. */
    constructor ()
      ensures models == [] && model == "" && text == "" && status == Ready && messages == []
      ensures streamingMessageId == None && editingMessageId == None && editingContent == ""
    {
      models := [];
      model := "";
      text := "";
      status := Ready;
      messages := [];
      streamingMessageId := None;
      editingMessageId := None;
      editingContent := "";
    }

    /**
     * The quota list arrived: it becomes the selector list, and its first model is
     * selected. The load effect runs once, on mount, so the `!model` it tests sees the
     * initial empty selection.
     */
    method ModelsLoaded(quotas: seq<UserQuota>)
      modifies this`models, this`model
      ensures models == ModelList(quotas)
      ensures model == if |quotas| > 0 then quotas[0].modelName else old(model)
    {
      var modelList := ModelList(quotas);
      models := modelList;
      if |modelList| > 0 {
        model := modelList[0].id;
      }
    }

    /** Picking an entry in the model selector. */
    method SelectModel(id: string)
      modifies this`model
      ensures model == id
    {
      model := id;
    }

    /** Typing in the prompt box. */
    method SetText(value: string)
      modifies this`text
      ensures text == value
    {
      text := value;
    }

    /**
     * `sendChatRequest`: without a model nothing changes; otherwise the user message and
     * an empty assistant message are appended, the status becomes streaming, and a stream
     * is opened with the transcript of the messages as they were before the append.
     */
    method SendChatRequest(userContent: string, files: seq<FileInput>, stamps: Stamps)
      returns (stream: StreamSession?)
      modifies this`messages, this`status, this`streamingMessageId
      ensures model == "" ==>
        && stream == null
        && messages == old(messages) && status == old(status) && streamingMessageId == old(streamingMessageId)
      ensures model != "" ==>
        && stream != null && fresh(stream)
        && messages == old(messages) + [UserMessage(userContent, files, stamps), AssistantMessage(stamps)]
        && status == Streaming
        && streamingMessageId == Some(AssistantKey(stamps.assistantId))
        && stream.assistantMessageId == AssistantKey(stamps.assistantId)
        && stream.request == Request(model, Transcript(old(messages), userContent, files))
        && stream.fullContent == ""
    {
      if model == "" {
        return null;
      }
      var prior := messages;
      messages := messages + [UserMessage(userContent, files, stamps)];
      status := Streaming;
      var assistantMessageId := AssistantKey(stamps.assistantId);
      messages := messages + [AssistantMessage(stamps)];
      streamingMessageId := Some(assistantMessageId);
      var current := BuildCurrentContent(userContent, files);
      var chatMessages := History(prior) + [ChatMessage(User, current)];
      stream := new StreamSession(assistantMessageId, Request(model, chatMessages));
    }

    /**
     * `handleSubmit`: an empty prompt without files is ignored; otherwise the status
     * becomes submitted, the request is sent and the prompt box is cleared.
     */
    method Submit(messageText: string, files: seq<FileInput>, stamps: Stamps)
      returns (stream: StreamSession?)
      modifies this`messages, this`status, this`streamingMessageId, this`text
      ensures messageText == "" && |files| == 0 ==>
        && stream == null
        && messages == old(messages) && status == old(status)
        && streamingMessageId == old(streamingMessageId) && text == old(text)
      ensures (messageText != "" || |files| > 0) && model == "" ==>
        && stream == null
        && messages == old(messages) && status == Submitted
        && streamingMessageId == old(streamingMessageId) && text == ""
      ensures (messageText != "" || |files| > 0) && model != "" ==>
        && stream != null && fresh(stream)
        && messages == old(messages) + [UserMessage(messageText, files, stamps), AssistantMessage(stamps)]
        && status == Streaming
        && streamingMessageId == Some(AssistantKey(stamps.assistantId))
        && stream.assistantMessageId == AssistantKey(stamps.assistantId)
        && stream.request == Request(model, Transcript(old(messages), messageText, files))
        && stream.fullContent == ""
        && text == ""
    {
      var hasText := messageText != "";
      var hasFiles := |files| > 0;
      if !hasText && !hasFiles {
        return null;
      }
      status := Submitted;
      stream := SendChatRequest(messageText, files, stamps);
      text := "";
    }

    /** The error callback, and the `catch` around the stream: status error, no stream. */
    method StreamFailed()
      modifies this`status, this`streamingMessageId
      ensures status == Error && streamingMessageId == None
    {
      status := Error;
      streamingMessageId := None;
    }

    /** The completion callback: status ready, no stream. */
    method StreamCompleted()
      modifies this`status, this`streamingMessageId
      ensures status == Ready && streamingMessageId == None
    {
      status := Ready;
      streamingMessageId := None;
    }

    /** `handleDeleteMessage`: every message with the key is dropped. */
    method DeleteMessage(messageKey: string)
      modifies this`messages
      ensures messages == RemoveKey(old(messages), messageKey)
    {
      messages := RemoveKey(messages, messageKey);
    }

    /** `handleStartEdit`: the version being edited and its text; the message key is not used. */
    method StartEdit(messageKey: string, versionId: string, content: string)
      modifies this`editingMessageId, this`editingContent
      ensures editingMessageId == Some(versionId) && editingContent == content
    {
      editingMessageId := Some(versionId);
      editingContent := content;
    }

    /** Typing in the edit box. */
    method EditText(value: string)
      modifies this`editingContent
      ensures editingContent == value
    {
      editingContent := value;
    }

    /** `handleCancelEdit`. */
    method CancelEdit()
      modifies this`editingMessageId, this`editingContent
      ensures editingMessageId == None && editingContent == ""
    {
      editingMessageId := None;
      editingContent := "";
    }

    /**
     * `handleSaveEdit`: a blank edit is refused and nothing changes; otherwise the
     * version gets the trimmed text and the editing state is cleared.
     */
    method SaveEdit(messageKey: string, versionId: string) returns (saved: bool)
      modifies this`messages, this`editingMessageId, this`editingContent
      ensures saved <==> Trim(old(editingContent)) != ""
      ensures !saved ==>
        messages == old(messages) && editingMessageId == old(editingMessageId) && editingContent == old(editingContent)
      ensures saved ==>
        && messages == EditVersion(old(messages), messageKey, versionId, Trim(old(editingContent)))
        && editingMessageId == None && editingContent == ""
    {
      if Trim(editingContent) == "" {
        return false;
      }
      messages := EditVersion(messages, messageKey, versionId, Trim(editingContent));
      editingMessageId := None;
      editingContent := "";
      saved := true;
    }
  }

  /**
   * Two chunks streamed into a fresh turn: the list keeps its two messages, and the
   * assistant's only version holds the split of the whole buffer.
   */
  lemma TwoChunksIntoFreshTurn(userContent: string, files: seq<FileInput>, stamps: Stamps, c1: string, c2: string)
    ensures var msgs, id := [UserMessage(userContent, files, stamps), AssistantMessage(stamps)], AssistantKey(stamps.assistantId);
      var r, split := ApplyChunk(ApplyChunk(msgs, id, SplitBuffer(c1)), id, SplitBuffer(c1 + c2)), SplitBuffer(c1 + c2);
      |r| == 2 && r[1].versions == [Version(id, split.content, Some(split.thinking))]
  {
    var msgs, id := [UserMessage(userContent, files, stamps), AssistantMessage(stamps)], AssistantKey(stamps.assistantId);
    var s1, s2 := SplitBuffer(c1), SplitBuffer(c1 + c2);
    ApplyChunkLastWins(msgs, id, s1, s2);
    FirstChunkReachesAssistant([], userContent, files, stamps, s2);
    assert [] + msgs == msgs;
  }

  /**
   * The chunks `"<think>ab"` and `"cd</think>answer text"` streamed into a fresh turn
   * leave the assistant version with thinking `"abcd"` and content `"answer text"`.
   */
  lemma StreamedPairConversation(userContent: string, files: seq<FileInput>, stamps: Stamps)
    ensures var msgs, id := [UserMessage(userContent, files, stamps), AssistantMessage(stamps)], AssistantKey(stamps.assistantId);
      var r := ApplyChunk(ApplyChunk(msgs, id, SplitBuffer("<think>ab")), id, SplitBuffer("<think>ab" + "cd</think>answer text"));
      |r| == 2 && r[1].versions == [Version(id, "answer text", Some("abcd"))]
  {
    TwoChunksIntoFreshTurn(userContent, files, stamps, "<think>ab", "cd</think>answer text");
    StreamedPairExample();
  }

  /**
   * A whole conversation turn on a fresh page: the models arrive, `"hi"` is submitted,
   * two chunks stream in and the stream completes. The turn ends ready, with the two
   * messages, and the assistant's version holding the split of the whole buffer.
   */
  method StreamedConversation(quotas: seq<UserQuota>, stamps: Stamps, c1: string, c2: string) returns (session: Session)
    requires |quotas| > 0 && quotas[0].modelName != ""
    ensures session.status == Ready && session.streamingMessageId == None
    ensures |session.messages| == 2
    ensures session.messages[1].versions ==
      [Version(AssistantKey(stamps.assistantId), SplitBuffer(c1 + c2).content, Some(SplitBuffer(c1 + c2).thinking))]
  {
    var stream;
    session, stream := SubmittedConversation(quotas, stamps);
    StreamTwoChunks(session, stream, "hi", [], stamps, c1, c2);
    session.StreamCompleted();
  }

  /** Loading the models and submitting `"hi"` in a fresh page opens a stream for the new turn. */
  method SubmittedConversation(quotas: seq<UserQuota>, stamps: Stamps) returns (session: Session, stream: StreamSession)
    requires |quotas| > 0 && quotas[0].modelName != ""
    ensures fresh(session) && fresh(stream)
    ensures session.messages == [UserMessage("hi", [], stamps), AssistantMessage(stamps)]
    ensures stream.assistantMessageId == AssistantKey(stamps.assistantId) && stream.fullContent == ""
  {
    session := new Session();
    session.ModelsLoaded(quotas);
    var s := session.Submit("hi", [], stamps);
    stream := s;
  }

  /** Two chunks streamed into the turn just submitted. */
  method StreamTwoChunks(session: Session, stream: StreamSession, userContent: string, files: seq<FileInput>,
                         stamps: Stamps, c1: string, c2: string)
    requires session.messages == [UserMessage(userContent, files, stamps), AssistantMessage(stamps)]
    requires stream.assistantMessageId == AssistantKey(stamps.assistantId) && stream.fullContent == ""
    modifies session`messages, stream`fullContent
    ensures |session.messages| == 2
    ensures session.messages[1].versions ==
      [Version(AssistantKey(stamps.assistantId), SplitBuffer(c1 + c2).content, Some(SplitBuffer(c1 + c2).thinking))]
  {
    stream.OnChunk(c1, session);
    assert stream.fullContent == c1;
    stream.OnChunk(c2, session);
    TwoChunksIntoFreshTurn(userContent, files, stamps, c1, c2);
  }
}
