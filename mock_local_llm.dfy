/**
 * The development stand-in for the native llama.cpp engine (`MockLocalLLM`, src/modules/local-llm/mock.ts):
 * a status record, a `Set` of token listeners, and `generate`, which streams one of six canned banking
 * answers word by word to every listener.
 */
module MockLocalLlm {
  import opened Common
  import opened JsString
  import opened TokenListeners

  datatype EngineState = Idle | Loading | Ready | Error

  datatype ModelInfo = ModelInfo(name: string, size: int, quantization: Option<string>)

  datatype EngineStatus = EngineStatus(state: EngineState, message: Option<string>, modelInfo: Option<ModelInfo>)

  const NotReadyError: string := "Model not ready. Load a model first."
  const BusyError: string := "Generation already in progress. Call stop() first."
  const LoadedMessage: string := "Modelo cargado correctamente"
  const UnknownModelName: string := "unknown-model.gguf"
  const Quantization: string := "Q4_K_M"

  /** The canned answers `generate` picks from at random; the pick is a parameter here. */
  const Responses: seq<string> := [
    "Perfecto, entiendo que necesitas ayuda con información bancaria. ",
    "Para calcular las cuotas de un préstamo, necesito algunos datos: el monto que deseas solicitar, el plazo en meses y la tasa de interés estimada. ",
    "Como ejemplo, si solicitas $100,000 a 24 meses con una tasa del 15% anual, la cuota mensual aproximada sería de $4,850. ",
    "**Importante**: Esta es solo una estimación. Las tasas reales pueden variar según tu perfil crediticio y las políticas del banco. ",
    "Te recomiendo consultar con un asesor especializado para obtener información precisa y actualizada sobre nuestros productos financieros. ",
    "¿Hay algún monto específico o plazo que tengas en mente?"
  ]

  /** The tokens streamed for a list of words: each word, followed by a space unless it is the last. */
  function WordTokens(words: seq<string>): seq<string> {
    seq(|words|, i requires 0 <= i < |words| => words[i] + (if i < |words| - 1 then " " else ""))
  }

  /** Streaming the words of a split and concatenating the tokens gives back the joined words. */
  lemma {:induction false} WordTokensConcat(words: seq<string>)
    requires |words| >= 1
    ensures Concat(WordTokens(words)) == Join(words, ' ')
    decreases |words|
  {
    if |words| > 1 {
      WordTokensConcat(words[1..]);
      assert WordTokens(words)[1..] == WordTokens(words[1..]);
    }
  }

  /** The tokens of an answer, concatenated, are exactly the answer: nothing is lost or added. */
  lemma StreamedResponse(choice: nat)
    requires choice < |Responses|
    ensures Concat(WordTokens(Split(Responses[choice], ' '))) == Responses[choice]
  {
    WordTokensConcat(Split(Responses[choice], ' '));
    JoinSplit(Responses[choice], ' ');
  }

  /**
   * After a completed generation every registered listener has received the whole answer, token by
   * token and in order, and a callback that is not registered has received nothing.
   */
  lemma ListenerReceivesResponse(listeners: seq<ListenerId>, choice: nat, listener: ListenerId)
    requires NoDup(listeners) && choice < |Responses|
    ensures var got := Received(Stream(listeners, WordTokens(Split(Responses[choice], ' '))), listener);
      if listener in listeners then got == WordTokens(Split(Responses[choice], ' ')) && Concat(got) == Responses[choice]
      else got == []
  {
    NoDupCount(listeners, listener);
    ReceivedStream(listeners, WordTokens(Split(Responses[choice], ' ')), listener);
    StreamedResponse(choice);
  }

  class MockLocalLLM {
    var status: EngineStatus
    /** The listener `Set`, in insertion order. */
    var listeners: seq<ListenerId>
    var isGenerating: bool
    var systemPrompt: string
    var modelPath: string
    /** Every call the engine has made to a listener so far. */
    var delivered: seq<Delivery>

    ghost predicate Valid()
      reads this
    {
      NoDup(listeners)
    }

    constructor()
      ensures Valid()
      ensures status == EngineStatus(Idle, None, None) && listeners == [] && !isGenerating
      ensures systemPrompt == "" && modelPath == "" && delivered == []
    {
      status := EngineStatus(Idle, None, None);
      listeners := [];
      isGenerating := false;
      systemPrompt := "";
      modelPath := "";
      delivered := [];
    }

    /**
     * `loadModel`: the engine ends ready, its model named after the last '/' segment of the path.
     * The randomly drawn size (1000..7999) is a parameter.
     */
    method LoadModel(path: string, simulatedSize: int) returns (ok: bool)
      requires 1000 <= simulatedSize < 8000
      modifies this
      ensures ok
      ensures status == EngineStatus(Ready, Some(LoadedMessage),
        Some(ModelInfo(LastSegmentOr(path, UnknownModelName), simulatedSize, Some(Quantization))))
      ensures modelPath == path
      ensures listeners == old(listeners) && isGenerating == old(isGenerating)
      ensures systemPrompt == old(systemPrompt) && delivered == old(delivered)
    {
      status := EngineStatus(Loading, Some("Cargando modelo..."), None);
      modelPath := path;
      var modelName := LastSegmentOr(path, UnknownModelName);
      status := EngineStatus(Ready, Some(LoadedMessage), Some(ModelInfo(modelName, simulatedSize, Some(Quantization))));
      ok := true;
    }

    method SetSystemPrompt(prompt: string)
      modifies this
      ensures systemPrompt == prompt
      ensures status == old(status) && listeners == old(listeners) && isGenerating == old(isGenerating)
      ensures modelPath == old(modelPath) && delivered == old(delivered)
    {
      systemPrompt := prompt;
    }

    /**
     * `generate`: refuses unless the engine is ready and idle, then streams the chosen answer word
     * by word to every listener. The returned error is the message of the exception `generate`
     * throws.
     */
    method Generate(input: string, choice: nat) returns (error: Option<string>)
      requires Valid() && choice < |Responses|
      modifies this
      ensures Valid()
      ensures old(status).state != Ready ==> error == Some(NotReadyError) && delivered == old(delivered)
      ensures old(status).state == Ready && old(isGenerating) ==>
        error == Some(BusyError) && delivered == old(delivered) && isGenerating
      ensures old(status).state == Ready && !old(isGenerating) ==>
        error == None && !isGenerating
        && delivered == old(delivered) + Stream(listeners, WordTokens(Split(Responses[choice], ' ')))
      ensures error.Some? ==> isGenerating == old(isGenerating)
      ensures status == old(status) && listeners == old(listeners)
      ensures systemPrompt == old(systemPrompt) && modelPath == old(modelPath)
    {
      if status.state != Ready {
        return Some(NotReadyError);
      }
      if isGenerating {
        return Some(BusyError);
      }
      isGenerating := true;
      StreamWords(Split(Responses[choice], ' '));
      isGenerating := false;
      error := None;
    }

    /** The `for` loop of `generate`: one broadcast per word while the generation is running. */
    method StreamWords(words: seq<string>)
      requires isGenerating
      modifies this
      ensures isGenerating
      ensures delivered == old(delivered) + Stream(listeners, WordTokens(words))
      ensures status == old(status) && listeners == old(listeners)
      ensures systemPrompt == old(systemPrompt) && modelPath == old(modelPath)
    {
      ghost var tokens := WordTokens(words);
      var i := 0;
      // The `isGenerating` conjunct keeps the source's stop test in form only: nothing in this loop clears it.
      while i < |words| && isGenerating
        invariant 0 <= i <= |words| && isGenerating
        invariant status == old(status) && listeners == old(listeners)
        invariant systemPrompt == old(systemPrompt) && modelPath == old(modelPath)
        invariant delivered == old(delivered) + Stream(listeners, tokens[..i])
        decreases |words| - i
      {
        var word := words[i] + (if i < |words| - 1 then " " else "");
        Emit(word);
        assert tokens[..i + 1][..i] == tokens[..i];
        i := i + 1;
      }
      assert tokens[..i] == tokens;
    }

    /**
     * `listeners.forEach` with a `try`/`catch` around each call: an exception a listener throws is
     * caught and logged, and the broadcast goes on, so every listener is called.
     */
    method Emit(word: string)
      modifies this
      ensures delivered == old(delivered) + Broadcast(listeners, word)
      ensures status == old(status) && listeners == old(listeners) && isGenerating == old(isGenerating)
      ensures systemPrompt == old(systemPrompt) && modelPath == old(modelPath)
    {
      var j := 0;
      while j < |listeners|
        invariant 0 <= j <= |listeners|
        invariant delivered == old(delivered) + Broadcast(listeners[..j], word)
        invariant status == old(status) && listeners == old(listeners) && isGenerating == old(isGenerating)
        invariant systemPrompt == old(systemPrompt) && modelPath == old(modelPath)
      {
        delivered := delivered + [Delivery(listeners[j], word)];
        assert listeners[..j + 1][..j] == listeners[..j];
        j := j + 1;
      }
      assert listeners[..j] == listeners;
    }

    /** `stop`: no generation is running afterwards; nothing else changes. */
    method Stop()
      modifies this
      ensures !isGenerating
      ensures status == old(status) && listeners == old(listeners) && systemPrompt == old(systemPrompt)
      ensures modelPath == old(modelPath) && delivered == old(delivered)
    {
      isGenerating := false;
    }

    /** `reset` is `stop` followed by a delay. */
    method Reset()
      modifies this
      ensures !isGenerating
      ensures status == old(status) && listeners == old(listeners) && systemPrompt == old(systemPrompt)
      ensures modelPath == old(modelPath) && delivered == old(delivered)
    {
      Stop();
    }

    /** `getStatus` returns a copy: later changes to the engine do not reach it. */
    method GetStatus() returns (s: EngineStatus)
      ensures s == status
    {
      s := status;
    }

    /** `addTokenListener`: `Set.add` of the callback. */
    method AddTokenListener(callback: ListenerId)
      requires Valid()
      modifies this
      ensures Valid()
      ensures listeners == SetAdd(old(listeners), callback)
      ensures status == old(status) && isGenerating == old(isGenerating) && systemPrompt == old(systemPrompt)
      ensures modelPath == old(modelPath) && delivered == old(delivered)
    {
      SetAddSpec(listeners, callback);
      listeners := SetAdd(listeners, callback);
    }

    /** The function `addTokenListener` returns: `Set.delete` of that callback. */
    method Unsubscribe(callback: ListenerId)
      requires Valid()
      modifies this
      ensures Valid()
      ensures listeners == RemoveAll(old(listeners), callback)
      ensures status == old(status) && isGenerating == old(isGenerating) && systemPrompt == old(systemPrompt)
      ensures modelPath == old(modelPath) && delivered == old(delivered)
    {
      RemoveAllSpec(listeners, callback);
      listeners := RemoveAll(listeners, callback);
    }

    /** `removeAllListeners`: `Set.clear`. */
    method RemoveAllListeners()
      modifies this
      ensures Valid() && listeners == []
      ensures status == old(status) && isGenerating == old(isGenerating) && systemPrompt == old(systemPrompt)
      ensures modelPath == old(modelPath) && delivered == old(delivered)
    {
      listeners := [];
    }
  }
}
