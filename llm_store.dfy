/**
 * The persisted chat store (`useLLMStore`, src/store/llmStore.ts). Every action of the store replaces
 * part of an immutable state record, so each action is a function from the old state to the new one.
 */
module LlmStore {
  import opened Common
  import opened JsString

  datatype Role = User | Assistant | SystemRole

  datatype EngineStatus = Idle | Loading | Ready | EngineError

  /** A chat message; an absent `isStreaming` is `false`. */
  datatype ChatMessage = ChatMessage(id: string, role: Role, text: string, timestamp: int, isStreaming: bool)

  datatype LlmState = LlmState(
    modelPath: Option<string>,
    modelSize: Option<int>,
    engineStatus: EngineStatus,
    statusMessage: Option<string>,
    nCtx: int,
    nThreads: int,
    systemPrompt: string,
    forceSpanish: bool,
    chatMessages: seq<ChatMessage>,
    isGenerating: bool)

  /** The part of the state written to storage under "llm-storage". */
  datatype PersistedState = PersistedState(
    modelPath: Option<string>,
    modelSize: Option<int>,
    nCtx: int,
    nThreads: int,
    systemPrompt: string,
    forceSpanish: bool)

  /** The first line of the default system prompt. */
  const DefaultIntro: string :=
    "Eres un asistente bancario que siempre responde en " + "español" + ", de forma breve, clara y responsable.\n"

  const DefaultSystemPrompt: string :=
    DefaultIntro
    + "\n"
    + "Ayudas con:\n"
    + "(1) simulación de préstamos (cuotas aproximadas)\n"
    + "(2) pagos y cronogramas\n"
    + "(3) preguntas frecuentes de banca minorista\n"
    + "\n"
    + "No inventes tasas ni políticas reales; si faltan datos, pide los mínimos (monto, plazo, tasa estimada anual).\n"
    + "Incluye advertencias cuando des estimaciones y sugiere verificar con un asesor."

  const DefaultNCtx: int := 1024
  const DefaultNThreads: int := 4

  /** The state a fresh store starts from. */
  function Initial(): (s: LlmState)
    ensures s.chatMessages == [] && !s.isGenerating && s.engineStatus == Idle
    ensures s.modelPath == None && s.modelSize == None && s.statusMessage == None
    ensures s.nCtx == DefaultNCtx && s.nThreads == DefaultNThreads
    ensures s.systemPrompt == DefaultSystemPrompt && s.forceSpanish
  {
    LlmState(None, None, Idle, None, DefaultNCtx, DefaultNThreads, DefaultSystemPrompt, true, [], false)
  }

  /** The last message is an assistant message still being streamed into. */
  predicate StreamingAssistantLast(messages: seq<ChatMessage>) {
    |messages| > 0 && Last(messages).role == Assistant && Last(messages).isStreaming
  }

  /** Same state apart from the chat messages. */
  predicate SameExceptMessages(s: LlmState, t: LlmState) {
    s.(chatMessages := t.chatMessages) == t
  }

  /** `setModelConfig`: a field given replaces the old value, a field left out keeps it. */
  function SetModelConfig(s: LlmState, nCtx: Option<int>, nThreads: Option<int>): (r: LlmState)
    ensures r.nCtx == (if nCtx.Some? then nCtx.value else s.nCtx)
    ensures r.nThreads == (if nThreads.Some? then nThreads.value else s.nThreads)
    ensures r.(nCtx := s.nCtx, nThreads := s.nThreads) == s
  {
    s.(nCtx := nCtx.GetOr(s.nCtx), nThreads := nThreads.GetOr(s.nThreads))
  }

  /**
   * `addMessage`: appends one message with the given role, text and streaming flag; the fresh id
   * and the timestamp, drawn from the clock and a random source, are parameters.
   */
  function AddMessage(s: LlmState, role: Role, text: string, isStreaming: bool, id: string, timestamp: int): (r: LlmState)
    ensures |r.chatMessages| == |s.chatMessages| + 1
    ensures r.chatMessages[..|s.chatMessages|] == s.chatMessages
    ensures Last(r.chatMessages) == ChatMessage(id, role, text, timestamp, isStreaming)
    ensures SameExceptMessages(s, r)
  {
    var r := s.(chatMessages := s.chatMessages + [ChatMessage(id, role, text, timestamp, isStreaming)]);
    assert r.chatMessages[..|s.chatMessages|] == s.chatMessages;
    r
  }

  /**
   * `updateLastAssistantChunk`: a streaming assistant message at the end grows by the chunk;
   * otherwise a new streaming assistant message holding just the chunk is appended. No other
   * message changes.
   */
  function UpdateLastAssistantChunk(s: LlmState, chunk: string, id: string, timestamp: int): (r: LlmState)
    ensures SameExceptMessages(s, r)
    ensures StreamingAssistantLast(r.chatMessages)
    ensures StreamingAssistantLast(s.chatMessages) ==>
      |r.chatMessages| == |s.chatMessages|
      && Last(r.chatMessages) == Last(s.chatMessages).(text := Last(s.chatMessages).text + chunk)
    ensures !StreamingAssistantLast(s.chatMessages) ==>
      |r.chatMessages| == |s.chatMessages| + 1
      && Last(r.chatMessages) == ChatMessage(id, Assistant, chunk, timestamp, true)
    ensures forall i :: 0 <= i < |s.chatMessages| - 1 ==> r.chatMessages[i] == s.chatMessages[i]
    ensures !StreamingAssistantLast(s.chatMessages) ==> r.chatMessages[..|s.chatMessages|] == s.chatMessages
  {
    var messages := s.chatMessages;
    if StreamingAssistantLast(messages) then
      var last := Last(messages);
      s.(chatMessages := messages[|messages| - 1 := last.(text := last.text + chunk)])
    else
      AddMessage(s, Assistant, chunk, true, id, timestamp)
  }

  /**
   * `setIsGenerating`: sets the flag; when generation stops, a streaming assistant message at the
   * end is marked complete. The number of messages never changes.
   */
  function SetIsGenerating(s: LlmState, generating: bool): (r: LlmState)
    ensures r.isGenerating == generating
    ensures r.(isGenerating := s.isGenerating, chatMessages := s.chatMessages) == s
    ensures |r.chatMessages| == |s.chatMessages|
    ensures forall i :: 0 <= i < |s.chatMessages| - 1 ==> r.chatMessages[i] == s.chatMessages[i]
    ensures generating || !StreamingAssistantLast(s.chatMessages) ==> r.chatMessages == s.chatMessages
    ensures !generating && StreamingAssistantLast(s.chatMessages) ==>
      Last(r.chatMessages) == Last(s.chatMessages).(isStreaming := false)
    ensures !generating ==> !StreamingAssistantLast(r.chatMessages)
  {
    var s1 := s.(isGenerating := generating);
    if !generating && StreamingAssistantLast(s1.chatMessages) then
      var messages := s1.chatMessages;
      s1.(chatMessages := messages[|messages| - 1 := Last(messages).(isStreaming := false)])
    else s1
  }

  /** `resetChat`: no messages and no generation; the configuration stays. */
  function ResetChat(s: LlmState): (r: LlmState)
    ensures r.chatMessages == [] && !r.isGenerating
    ensures r.(chatMessages := s.chatMessages, isGenerating := s.isGenerating) == s
  {
    s.(chatMessages := [], isGenerating := false)
  }

  /** `partialize`: the model and the settings are stored; the chat and the engine status are not. */
  function Partialize(s: LlmState): (p: PersistedState)
    ensures p.modelPath == s.modelPath && p.modelSize == s.modelSize
    ensures p.nCtx == s.nCtx && p.nThreads == s.nThreads
    ensures p.systemPrompt == s.systemPrompt && p.forceSpanish == s.forceSpanish
  {
    PersistedState(s.modelPath, s.modelSize, s.nCtx, s.nThreads, s.systemPrompt, s.forceSpanish)
  }

  /**
   * Two states store the same record exactly when they agree on the six persisted fields: the
   * messages, the generation flag and the engine status never reach storage.
   */
  lemma PersistedFields(s: LlmState, t: LlmState)
    ensures Partialize(s) == Partialize(t) <==>
      s.(engineStatus := t.engineStatus, statusMessage := t.statusMessage,
         chatMessages := t.chatMessages, isGenerating := t.isGenerating) == t
  {
  }

  /** The chat actions never change what is stored. */
  lemma ChatActionsNotPersisted(s: LlmState, role: Role, text: string, streaming: bool, generating: bool,
                                id: string, timestamp: int)
    ensures Partialize(AddMessage(s, role, text, streaming, id, timestamp)) == Partialize(s)
    ensures Partialize(UpdateLastAssistantChunk(s, text, id, timestamp)) == Partialize(s)
    ensures Partialize(SetIsGenerating(s, generating)) == Partialize(s)
    ensures Partialize(ResetChat(s)) == Partialize(s)
  {
  }

  /** The store after a series of streamed chunks, each handed to `updateLastAssistantChunk`. */
  function FeedChunks(s: LlmState, chunks: seq<string>, id: string, timestamp: int): LlmState
    decreases |chunks|
  {
    if chunks == [] then s
    else UpdateLastAssistantChunk(FeedChunks(s, chunks[..|chunks| - 1], id, timestamp), Last(chunks), id, timestamp)
  }

  /**
   * Streaming a reply into a chat that does not end in a streaming assistant message yields
   * exactly one new assistant message, whose text is the concatenation of the chunks in order;
   * the earlier messages and the rest of the state are untouched.
   */
  lemma {:induction false} StreamedReply(s: LlmState, chunks: seq<string>, id: string, timestamp: int)
    requires !StreamingAssistantLast(s.chatMessages) && |chunks| >= 1
    ensures var r := FeedChunks(s, chunks, id, timestamp);
      && SameExceptMessages(s, r)
      && r.chatMessages == s.chatMessages + [ChatMessage(id, Assistant, Concat(chunks), timestamp, true)]
    decreases |chunks|
  {
    var init := chunks[..|chunks| - 1];
    if init == [] {
      assert chunks == [chunks[0]];
      assert Concat(chunks) == chunks[0] + Concat([]);
      assert Concat(chunks) == chunks[0];
      assert FeedChunks(s, init, id, timestamp) == s;
      assert FeedChunks(s, chunks, id, timestamp) == UpdateLastAssistantChunk(s, chunks[0], id, timestamp);
    } else {
      var before := FeedChunks(s, init, id, timestamp);
      var r := UpdateLastAssistantChunk(before, Last(chunks), id, timestamp);
      assert r == FeedChunks(s, chunks, id, timestamp);
      StreamedReply(s, init, id, timestamp);
      var m := ChatMessage(id, Assistant, Concat(init), timestamp, true);
      assert before.chatMessages == s.chatMessages + [m];
      assert Last(before.chatMessages) == m;
      assert StreamingAssistantLast(before.chatMessages);
      ConcatSnoc(init, Last(chunks));
      assert init + [Last(chunks)] == chunks;
      assert Last(r.chatMessages) == ChatMessage(id, Assistant, Concat(chunks), timestamp, true);
      assert |r.chatMessages| == |s.chatMessages| + 1;
      assert r.chatMessages[..|s.chatMessages|] == s.chatMessages;
      assert r.chatMessages == r.chatMessages[..|s.chatMessages|] + [Last(r.chatMessages)];
    }
  }

  /** Concatenating one more part appends it. */
  lemma {:induction false} ConcatSnoc(parts: seq<string>, part: string)
    ensures Concat(parts + [part]) == Concat(parts) + part
    decreases |parts|
  {
    if parts == [] {
      assert [part][1..] == [];
    } else {
      assert (parts + [part])[1..] == parts[1..] + [part];
      ConcatSnoc(parts[1..], part);
    }
  }

  /**
   * A whole reply: the chunks streamed in, then `setIsGenerating(false)`, leave one complete
   * assistant message holding the whole reply after the earlier messages.
   */
  lemma CompletedReply(s: LlmState, chunks: seq<string>, id: string, timestamp: int)
    requires !StreamingAssistantLast(s.chatMessages) && |chunks| >= 1
    ensures var r := SetIsGenerating(FeedChunks(s, chunks, id, timestamp), false);
      && !r.isGenerating
      && r.chatMessages == s.chatMessages + [ChatMessage(id, Assistant, Concat(chunks), timestamp, false)]
  {
    StreamedReply(s, chunks, id, timestamp);
    var r0 := FeedChunks(s, chunks, id, timestamp);
    var r := SetIsGenerating(r0, false);
    assert r.chatMessages == r0.chatMessages[|r0.chatMessages| - 1 := Last(r0.chatMessages).(isStreaming := false)];
  }
}
