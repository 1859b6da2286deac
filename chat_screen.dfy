/**
 * The chat screen's send path (src/components/ChatScreen.tsx): the prompt handed to the engine,
 * and the guards and store updates of `handleSendMessage`.
 */
module ChatScreen {
  import opened Common
  import opened JsString
  import opened LlmStore

  const SystemOpen: string := "<SYSTEM>\n"
  const SystemClose: string := "\n</SYSTEM>\n"
  const SpanishReminder: string := " (Responde siempre en español)"
  const ErrorReply: string := "Lo siento, ocurrió un error al generar la respuesta. Por favor, intenta nuevamente."
  const EngineUnavailableToast: string := "Motor no disponible"
  const GenerationErrorToast: string := "Error"

  /** The system block: present only when the prompt has more than whitespace; the prompt goes in untrimmed. */
  function SystemBlock(systemPrompt: string): string {
    if Trim(systemPrompt) != "" then SystemOpen + systemPrompt + SystemClose else ""
  }

  /** The user's turn, always present. */
  function UserTurn(userInput: string): string {
    "Usuario: " + userInput + "\nAsistente:"
  }

  /** The reminder to answer in Spanish, unless the system prompt already mentions "español". */
  function Reminder(systemPrompt: string, forceSpanish: bool): string {
    if forceSpanish && !Contains(ToLower(systemPrompt), "español") then SpanishReminder else ""
  }

  /** `buildFinalPrompt`. */
  function BuildFinalPrompt(systemPrompt: string, forceSpanish: bool, userInput: string): string {
    SystemBlock(systemPrompt) + UserTurn(userInput) + Reminder(systemPrompt, forceSpanish)
  }

  /** The opening of a prompt is decided by the system block alone, whatever follows the user's turn. */
  lemma PromptOpening(systemPrompt: string, userInput: string, tail: string)
    ensures var p := SystemBlock(systemPrompt) + UserTurn(userInput) + tail;
      && (StartsWith(p, SystemOpen) <==> Trim(systemPrompt) != "")
      && (Trim(systemPrompt) != "" ==> StartsWith(p, SystemOpen + systemPrompt + SystemClose))
      && (Trim(systemPrompt) == "" ==> StartsWith(p, "Usuario: "))
  {
    var block := SystemBlock(systemPrompt);
    var p := block + UserTurn(userInput) + tail;
    if Trim(systemPrompt) != "" {
      assert p == SystemOpen + (systemPrompt + SystemClose + UserTurn(userInput) + tail);
      assert p[..|block|] == block;
    } else {
      assert p == "Usuario: " + (userInput + "\nAsistente:" + tail);
      assert p[0] == 'U';
    }
  }

  /**
   * The prompt opens with the system block, holding the untrimmed system prompt, exactly when the
   * trimmed system prompt is not empty; otherwise it opens with the user's turn.
   */
  lemma PromptStart(systemPrompt: string, forceSpanish: bool, userInput: string)
    ensures var p := BuildFinalPrompt(systemPrompt, forceSpanish, userInput);
      && (StartsWith(p, SystemOpen) <==> Trim(systemPrompt) != "")
      && (Trim(systemPrompt) != "" ==> StartsWith(p, SystemOpen + systemPrompt + SystemClose))
      && (Trim(systemPrompt) == "" ==> StartsWith(p, "Usuario: "))
  {
    PromptOpening(systemPrompt, userInput, Reminder(systemPrompt, forceSpanish));
  }

  /** Right after the optional system block comes the user's turn with the input verbatim. */
  lemma PromptUserTurn(systemPrompt: string, forceSpanish: bool, userInput: string)
    ensures OccursAt(BuildFinalPrompt(systemPrompt, forceSpanish, userInput), UserTurn(userInput), |SystemBlock(systemPrompt)|)
  {
    var p := BuildFinalPrompt(systemPrompt, forceSpanish, userInput);
    var i := |SystemBlock(systemPrompt)|;
    assert p[i..i + |UserTurn(userInput)|] == UserTurn(userInput);
  }

  /**
   * The prompt ends with the Spanish reminder exactly when Spanish is forced and the lower-cased
   * system prompt does not mention "español"; otherwise it ends with the user's turn.
   */
  lemma ReminderIff(systemPrompt: string, forceSpanish: bool, userInput: string)
    ensures var p := BuildFinalPrompt(systemPrompt, forceSpanish, userInput);
      && (EndsWith(p, SpanishReminder) <==> forceSpanish && !Contains(ToLower(systemPrompt), "español"))
      && (!EndsWith(p, SpanishReminder) ==> EndsWith(p, "\nAsistente:"))
  {
    var p := BuildFinalPrompt(systemPrompt, forceSpanish, userInput);
    var head := SystemBlock(systemPrompt) + UserTurn(userInput);
    assert p == head + Reminder(systemPrompt, forceSpanish);
    assert head == (SystemBlock(systemPrompt) + "Usuario: " + userInput) + "\nAsistente:";
    assert head[|head| - |"\nAsistente:"|..] == "\nAsistente:";
    if Reminder(systemPrompt, forceSpanish) == "" {
      assert p == head;
      assert p[|p| - 1] == ':';
      assert SpanishReminder[|SpanishReminder| - 1] == ')';
    } else {
      assert p[|p| - |SpanishReminder|..] == SpanishReminder;
    }
  }

  /** A prompt with "español" at some index has content and, lower-cased, still mentions "español". */
  lemma MentionsSpanish(systemPrompt: string, i: nat)
    requires i + 7 <= |systemPrompt| && systemPrompt[i..i + 7] == "español"
    ensures Contains(ToLower(systemPrompt), "español") && Trim(systemPrompt) != ""
  {
    var lower := ToLower(systemPrompt);
    assert lower[i..i + 7] == ToLower(systemPrompt[i..i + 7]);
    assert OccursAt(lower, "español", i);
    assert systemPrompt[i] == 'e';
    TrimEmptyIff(systemPrompt);
  }

  /** The default system prompt has content and already mentions "español", so no reminder is added. */
  lemma DefaultPromptNoReminder(userInput: string)
    ensures BuildFinalPrompt(DefaultSystemPrompt, true, userInput)
      == SystemOpen + DefaultSystemPrompt + SystemClose + UserTurn(userInput)
  {
    assert DefaultSystemPrompt[51..58] == DefaultIntro[51..58] == "español";
    MentionsSpanish(DefaultSystemPrompt, 51);
  }

  /** The screen's own state and what it hands to the world. */
  class ChatScreenState {
    /** The text box. */
    var inputValue: string
    /** The shared chat store. */
    var store: LlmState
    /** The inputs passed to the engine's `generate`, in order. */
    var engineInputs: seq<string>
    /** The titles of the toasts shown, in order. */
    var toasts: seq<string>

    constructor(store: LlmState)
      ensures this.store == store && inputValue == "" && engineInputs == [] && toasts == []
    {
      this.store := store;
      inputValue := "";
      engineInputs := [];
      toasts := [];
    }

    /**
     * `handleSendMessage`. Nothing happens for blank input or while a reply is being generated; an
     * engine that is not ready only shows a toast. Otherwise the trimmed input becomes a user
     * message, generation is flagged, and the engine receives the final prompt. Whether the engine
     * call throws is a parameter, as are the ids and timestamps of the new messages; when it
     * throws, generation is cleared and one apology from the assistant is appended. On success the
     * flag stays set: the handler does not clear it.
     */
    method HandleSendMessage(userId: string, userStamp: int, errorId: string, errorStamp: int, generateThrows: bool)
      modifies this
      ensures Trim(old(inputValue)) == "" || old(store).isGenerating ==>
        store == old(store) && inputValue == old(inputValue) && engineInputs == old(engineInputs) && toasts == old(toasts)
      ensures Trim(old(inputValue)) != "" && !old(store).isGenerating && old(store).engineStatus != Ready ==>
        store == old(store) && inputValue == old(inputValue) && engineInputs == old(engineInputs)
        && toasts == old(toasts) + [EngineUnavailableToast]
      ensures Trim(old(inputValue)) != "" && !old(store).isGenerating && old(store).engineStatus == Ready ==>
        var sent := SetIsGenerating(AddMessage(old(store), User, Trim(old(inputValue)), false, userId, userStamp), true);
        && inputValue == ""
        && engineInputs == old(engineInputs) + [BuildFinalPrompt(old(store).systemPrompt, old(store).forceSpanish, Trim(old(inputValue)))]
        && (!generateThrows ==> store == sent && toasts == old(toasts))
        && (generateThrows ==>
              store == AddMessage(SetIsGenerating(sent, false), Assistant, ErrorReply, false, errorId, errorStamp)
              && toasts == old(toasts) + [GenerationErrorToast])
    {
      if Trim(inputValue) == "" || store.isGenerating {
        return;
      }
      if store.engineStatus != Ready {
        toasts := toasts + [EngineUnavailableToast];
        return;
      }
      var userMessage := Trim(inputValue);
      inputValue := "";
      Send(userMessage, userId, userStamp, errorId, errorStamp, generateThrows);
    }

    /**
     * The part of `handleSendMessage` after its guards: record the user's message, flag generation,
     * hand the final prompt to the engine and, when that throws, record the apology.
     */
    method Send(userMessage: string, userId: string, userStamp: int, errorId: string, errorStamp: int, generateThrows: bool)
      modifies this
      ensures inputValue == old(inputValue)
      ensures engineInputs == old(engineInputs) + [BuildFinalPrompt(old(store).systemPrompt, old(store).forceSpanish, userMessage)]
      ensures !generateThrows ==>
        store == SetIsGenerating(AddMessage(old(store), User, userMessage, false, userId, userStamp), true)
        && toasts == old(toasts)
      ensures generateThrows ==>
        store == AddMessage(SetIsGenerating(SetIsGenerating(AddMessage(old(store), User, userMessage, false, userId, userStamp), true), false),
                            Assistant, ErrorReply, false, errorId, errorStamp)
        && toasts == old(toasts) + [GenerationErrorToast]
    {
      var systemPrompt, forceSpanish := store.systemPrompt, store.forceSpanish;
      store := AddMessage(store, User, userMessage, false, userId, userStamp);
      store := SetIsGenerating(store, true);
      var finalPrompt := BuildFinalPrompt(systemPrompt, forceSpanish, userMessage);
      engineInputs := engineInputs + [finalPrompt];
      if generateThrows {
        store := SetIsGenerating(store, false);
        store := AddMessage(store, Assistant, ErrorReply, false, errorId, errorStamp);
        toasts := toasts + [GenerationErrorToast];
      }
    }
  }

  /**
   * A send that goes through adds the user's message, with the trimmed input as its text, before
   * anything else; a failed generation then leaves the flag cleared and exactly one more message,
   * the assistant's apology.
   */
  lemma SendOutcome(s: LlmState, input: string, userId: string, userStamp: int, errorId: string, errorStamp: int)
    requires Trim(input) != "" && !s.isGenerating && s.engineStatus == Ready
    ensures var sent := SetIsGenerating(AddMessage(s, User, Trim(input), false, userId, userStamp), true);
      && sent.isGenerating
      && sent.chatMessages == s.chatMessages + [ChatMessage(userId, User, Trim(input), userStamp, false)]
      && var failed := AddMessage(SetIsGenerating(sent, false), Assistant, ErrorReply, false, errorId, errorStamp);
      && !failed.isGenerating
      && failed.chatMessages == sent.chatMessages + [ChatMessage(errorId, Assistant, ErrorReply, errorStamp, false)]
  {
    var added := AddMessage(s, User, Trim(input), false, userId, userStamp);
    assert added.chatMessages == s.chatMessages + [ChatMessage(userId, User, Trim(input), userStamp, false)];
    var sent := SetIsGenerating(added, true);
    var stopped := SetIsGenerating(sent, false);
    assert !StreamingAssistantLast(sent.chatMessages);
    var failed := AddMessage(stopped, Assistant, ErrorReply, false, errorId, errorStamp);
    assert failed.chatMessages == stopped.chatMessages + [Last(failed.chatMessages)];
  }
}
