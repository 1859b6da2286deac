/**
 * The Capacitor-plugin stand-in for the native engine (the `LocalLLM` object of
 * src/plugins/local-llm/index.ts): module-level state, a plain array of token listeners, and
 * `generate`, which picks a canned answer from the system prompt and streams it from an interval
 * timer, one space-terminated token per tick.
 */
module LocalLlmPlugin {
  import opened Common
  import opened JsString
  import opened TokenListeners

  datatype EngineState = Idle | Loading | Ready | Error

  datatype ModelInfo = ModelInfo(name: string, size: int)

  datatype EngineStatus = EngineStatus(state: EngineState, message: Option<string>, modelInfo: Option<ModelInfo>)

  /** The running `setInterval` of a generation: the tokens and the index of the next one. */
  datatype Interval = Interval(tokens: seq<string>, tokenIndex: nat)

  const LoadedMessage: string := "Model loaded successfully"
  const UnknownModelName: string := "unknown.gguf"
  const SystemTag: string := "[Sistema aplicado] "

  const SpanishOpening: string := "Como asistente bancario, puedo ayudarte con tu consulta sobre "
  const SpanishClosing: string := ". Para préstamos personales, las tasas van del 15% al 35% anual dependiendo del perfil crediticio. Para una simulación precisa, necesitaría: monto deseado, plazo en meses, y tus ingresos aproximados. Recuerda que estas son estimaciones referenciales."
  const EnglishOpening: string := "As a banking assistant, I can help with your query about "
  const EnglishClosing: string := ". For personal loans, rates range from 15% to 35% annually depending on credit profile. For accurate simulation, I'd need: desired amount, term in months, and approximate income. Please note these are reference estimates."
  const GenericOpening: string := "Respuesta simulada del modelo local para: "
  const GenericClosing: string := ". El sistema está funcionando correctamente con streaming de tokens."

  /** The input between double quotes, as each template interpolates it. */
  function Quote(input: string): string {
    "\"" + input + "\""
  }

  /** One of the three answer templates, filled in with the input. */
  function Answer(opening: string, input: string, closing: string): string {
    opening + Quote(input) + closing
  }

  /** The answer template the lower-cased system prompt selects. */
  function Template(systemPrompt: string, input: string): string {
    var lower := ToLower(systemPrompt);
    if Contains(lower, "bancario") then
      if Contains(lower, "español") then Answer(SpanishOpening, input, SpanishClosing)
      else Answer(EnglishOpening, input, EnglishClosing)
    else Answer(GenericOpening, input, GenericClosing)
  }

  /** The mock answer of `generate`: the template, tagged when a system prompt is set. */
  function MockResponse(systemPrompt: string, input: string): string {
    (if systemPrompt != "" then SystemTag else "") + Template(systemPrompt, input)
  }

  /** The tokens the interval emits: each part of the split, followed by a space. */
  function Emission(tokens: seq<string>): seq<string> {
    seq(|tokens|, i requires 0 <= i < |tokens| => tokens[i] + " ")
  }

  /** A filled-in template begins with the first character of its opening. */
  lemma AnswerStart(opening: string, input: string, closing: string)
    requires |opening| > 0
    ensures |Answer(opening, input, closing)| > 0 && Answer(opening, input, closing)[0] == opening[0]
  {
  }

  /**
   * A prompt that mentions "bancario" and "español" selects the Spanish banking answer, "bancario"
   * alone the English one, and anything else the generic one; the three are distinct.
   */
  lemma TemplateChoice(systemPrompt: string, input: string)
    ensures var lower := ToLower(systemPrompt);
      && (Template(systemPrompt, input) == Answer(SpanishOpening, input, SpanishClosing)
          <==> Contains(lower, "bancario") && Contains(lower, "español"))
      && (Template(systemPrompt, input) == Answer(EnglishOpening, input, EnglishClosing)
          <==> Contains(lower, "bancario") && !Contains(lower, "español"))
      && (Template(systemPrompt, input) == Answer(GenericOpening, input, GenericClosing)
          <==> !Contains(lower, "bancario"))
  {
    AnswerStart(SpanishOpening, input, SpanishClosing);
    AnswerStart(EnglishOpening, input, EnglishClosing);
    AnswerStart(GenericOpening, input, GenericClosing);
  }

  /** The answer carries the "[Sistema aplicado] " tag exactly when a system prompt is set. */
  lemma TaggedIff(systemPrompt: string, input: string)
    ensures StartsWith(MockResponse(systemPrompt, input), SystemTag) <==> systemPrompt != ""
  {
    var t := Template(systemPrompt, input);
    if systemPrompt == "" {
      assert MockResponse(systemPrompt, input) == t;
      AnswerStart(SpanishOpening, input, SpanishClosing);
      AnswerStart(EnglishOpening, input, EnglishClosing);
      AnswerStart(GenericOpening, input, GenericClosing);
      assert t[0] != SystemTag[0];
    } else {
      assert MockResponse(systemPrompt, input)[..|SystemTag|] == SystemTag;
    }
  }

  /** A tagged or untagged filled-in template contains the quoted input right after its opening. */
  lemma AnswerQuotes(tag: string, opening: string, input: string, closing: string)
    ensures OccursAt(tag + Answer(opening, input, closing), Quote(input), |tag| + |opening|)
  {
    var r := tag + Answer(opening, input, closing);
    assert r == (tag + opening) + Quote(input) + closing;
  }

  /** Every answer quotes the user's input. */
  lemma QuotesInput(systemPrompt: string, input: string)
    ensures Contains(MockResponse(systemPrompt, input), Quote(input))
  {
    var tag := if systemPrompt != "" then SystemTag else "";
    var lower := ToLower(systemPrompt);
    if Contains(lower, "bancario") && Contains(lower, "español") {
      AnswerQuotes(tag, SpanishOpening, input, SpanishClosing);
    } else if Contains(lower, "bancario") {
      AnswerQuotes(tag, EnglishOpening, input, EnglishClosing);
    } else {
      AnswerQuotes(tag, GenericOpening, input, GenericClosing);
    }
  }

  /** The emitted tokens, concatenated, are the joined parts plus one trailing space. */
  lemma {:induction false} EmissionConcat(parts: seq<string>)
    requires |parts| >= 1
    ensures Concat(Emission(parts)) == Join(parts, ' ') + " "
    decreases |parts|
  {
    if |parts| > 1 {
      EmissionConcat(parts[1..]);
      assert Emission(parts)[1..] == Emission(parts[1..]);
    } else {
      assert Emission(parts)[1..] == [];
    }
  }

  /** Streaming the answer hands out the whole answer, followed by one extra space. */
  lemma StreamedResponse(systemPrompt: string, input: string)
    ensures Concat(Emission(Split(MockResponse(systemPrompt, input), ' '))) == MockResponse(systemPrompt, input) + " "
  {
    EmissionConcat(Split(MockResponse(systemPrompt, input), ' '));
    JoinSplit(MockResponse(systemPrompt, input), ' ');
  }

  /**
   * A listener registered once receives the whole answer, plus one trailing space, when the
   * interval runs to its end; a callback that is not registered receives nothing.
   */
  lemma ListenerReceivesResponse(listeners: seq<ListenerId>, systemPrompt: string, input: string, listener: ListenerId)
    requires Count(listeners, listener) <= 1
    ensures var tokens := Emission(Split(MockResponse(systemPrompt, input), ' '));
      var got := Received(Stream(listeners, tokens), listener);
      if Count(listeners, listener) == 1 then got == tokens && Concat(got) == MockResponse(systemPrompt, input) + " "
      else got == []
  {
    ReceivedStream(listeners, Emission(Split(MockResponse(systemPrompt, input), ' ')), listener);
    StreamedResponse(systemPrompt, input);
  }

  /** The deliveries a running interval still has to make to the current listeners. */
  function Pending(timer: Option<Interval>, listeners: seq<ListenerId>): seq<Delivery> {
    match timer
    case None => []
    case Some(t) =>
      if t.tokenIndex <= |t.tokens| then Stream(listeners, Emission(t.tokens)[t.tokenIndex..]) else []
  }

  /** The plugin's module-level state. */
  class LocalLLM {
    var state: EngineStatus
    var systemPrompt: string
    var listeners: seq<ListenerId>
    var timer: Option<Interval>
    var currentModelPath: string
    /** Every call the plugin has made to a listener so far. */
    var delivered: seq<Delivery>

    ghost predicate Valid()
      reads this
    {
      timer.Some? ==> timer.value.tokenIndex <= |timer.value.tokens|
    }

    constructor()
      ensures Valid()
      ensures state == EngineStatus(Idle, None, None) && systemPrompt == "" && listeners == []
      ensures timer == None && currentModelPath == "" && delivered == []
    {
      state := EngineStatus(Idle, None, None);
      systemPrompt := "";
      listeners := [];
      timer := None;
      currentModelPath := "";
      delivered := [];
    }

    /**
     * `loadModel`: ready, with the model named after the last '/' segment of the path; always
     * answers `{ok: true}`. The randomly drawn size (1e9..6e9-1) is a parameter.
     */
    method LoadModel(path: string, size: int) returns (ok: bool)
      requires 1000000000 <= size < 6000000000
      modifies this
      ensures ok
      ensures state == EngineStatus(Ready, Some(LoadedMessage), Some(ModelInfo(LastSegmentOr(path, UnknownModelName), size)))
      ensures currentModelPath == path
      ensures systemPrompt == old(systemPrompt) && listeners == old(listeners)
      ensures timer == old(timer) && delivered == old(delivered)
    {
      state := EngineStatus(Loading, Some("Loading model..."), None);
      currentModelPath := path;
      var modelName := LastSegmentOr(path, UnknownModelName);
      state := EngineStatus(Ready, Some(LoadedMessage), Some(ModelInfo(modelName, size)));
      ok := true;
    }

    method SetSystemPrompt(prompt: string)
      modifies this
      ensures systemPrompt == prompt
      ensures state == old(state) && listeners == old(listeners) && timer == old(timer)
      ensures currentModelPath == old(currentModelPath) && delivered == old(delivered)
    {
      systemPrompt := prompt;
    }

    /**
     * `generate`: does nothing unless the engine is ready; otherwise replaces any running interval
     * with one that will stream the mock answer's tokens from the first.
     */
    method Generate(input: string)
      requires Valid()
      modifies this
      ensures Valid()
      ensures old(state).state != Ready ==> timer == old(timer)
      ensures old(state).state == Ready ==>
        timer == Some(Interval(Split(MockResponse(systemPrompt, input), ' '), 0))
        && Pending(timer, listeners) == Stream(listeners, Emission(Split(MockResponse(systemPrompt, input), ' ')))
      ensures state == old(state) && systemPrompt == old(systemPrompt) && listeners == old(listeners)
      ensures currentModelPath == old(currentModelPath) && delivered == old(delivered)
    {
      if state.state != Ready {
        return;
      }
      var mockResponse := MockResponse(systemPrompt, input);
      var tokens := Split(mockResponse, ' ');
      timer := Some(Interval(tokens, 0));
      assert Emission(tokens)[0..] == Emission(tokens);
    }

    /**
     * One firing of the interval. Past the last token the interval clears itself. Otherwise the
     * next token, with a trailing space, goes to each listener in order. A listener in `faulty`
     * throws: the exception leaves the callback, the listeners after it are not called and the
     * index does not advance, so the next firing sends the same token again.
     */
    method Tick(faulty: set<ListenerId>) returns (thrown: bool)
      requires Valid() && timer.Some?
      modifies this
      ensures Valid()
      ensures old(timer.value.tokenIndex) >= |old(timer.value.tokens)| ==>
        !thrown && timer == None && delivered == old(delivered)
      ensures old(timer.value.tokenIndex) < |old(timer.value.tokens)| && !thrown ==>
        (forall l :: l in listeners ==> l !in faulty)
        && timer == Some(Interval(old(timer.value.tokens), old(timer.value.tokenIndex) + 1))
        && delivered == old(delivered) + Broadcast(listeners, old(timer.value.tokens[timer.value.tokenIndex]) + " ")
      ensures thrown ==> timer == old(timer)
      ensures thrown ==>
        exists k :: 0 <= k < |listeners| && listeners[k] in faulty
          && (forall m :: 0 <= m < k ==> listeners[m] !in faulty)
          && delivered == old(delivered) + Broadcast(listeners[..k + 1], old(timer.value.tokens[timer.value.tokenIndex]) + " ")
      ensures !thrown ==> delivered + Pending(timer, listeners) == old(delivered) + old(Pending(timer, listeners))
      ensures state == old(state) && systemPrompt == old(systemPrompt) && listeners == old(listeners)
      ensures currentModelPath == old(currentModelPath)
    {
      var t := timer.value;
      if t.tokenIndex >= |t.tokens| {
        timer := None;
        assert Emission(t.tokens)[t.tokenIndex..] == [];
        return false;
      }
      var token := t.tokens[t.tokenIndex] + " ";
      var j := 0;
      while j < |listeners|
        invariant 0 <= j <= |listeners|
        invariant forall m :: 0 <= m < j ==> listeners[m] !in faulty
        invariant delivered == old(delivered) + Broadcast(listeners[..j], token)
        invariant timer == old(timer) && state == old(state) && systemPrompt == old(systemPrompt)
        invariant listeners == old(listeners) && currentModelPath == old(currentModelPath)
      {
        delivered := delivered + [Delivery(listeners[j], token)];
        assert listeners[..j + 1][..j] == listeners[..j];
        if listeners[j] in faulty {
          return true;
        }
        j := j + 1;
      }
      assert listeners[..j] == listeners;
      timer := Some(Interval(t.tokens, t.tokenIndex + 1));
      ghost var rest := Emission(t.tokens)[t.tokenIndex..];
      assert rest == [token] + Emission(t.tokens)[t.tokenIndex + 1..];
      StreamAppend(listeners, [token], Emission(t.tokens)[t.tokenIndex + 1..]);
      assert Stream(listeners, [token]) == Broadcast(listeners, token) by {
        assert [token][..0] == [];
      }
      return false;
    }

    /** `stop`: clears the interval; nothing else changes. */
    method Stop()
      modifies this
      ensures Valid() && timer == None && Pending(timer, listeners) == []
      ensures state == old(state) && systemPrompt == old(systemPrompt) && listeners == old(listeners)
      ensures currentModelPath == old(currentModelPath) && delivered == old(delivered)
    {
      timer := None;
    }

    /** `reset`: clears the interval only; the engine state and the loaded model stay as they were. */
    method Reset()
      modifies this
      ensures Valid() && timer == None
      ensures state == old(state) && systemPrompt == old(systemPrompt) && listeners == old(listeners)
      ensures currentModelPath == old(currentModelPath) && delivered == old(delivered)
    {
      timer := None;
    }

    /** `getStatus` hands out the state record itself. */
    method GetStatus() returns (s: EngineStatus)
      ensures s == state
    {
      s := state;
    }

    /** `addTokenListener`: pushes the callback, even when it is already there. */
    method AddTokenListener(callback: ListenerId)
      modifies this
      ensures listeners == old(listeners) + [callback]
      ensures Count(listeners, callback) == Count(old(listeners), callback) + 1
      ensures state == old(state) && systemPrompt == old(systemPrompt) && timer == old(timer)
      ensures currentModelPath == old(currentModelPath) && delivered == old(delivered)
    {
      listeners := listeners + [callback];
      assert listeners[..|listeners| - 1] == old(listeners);
    }

    /** The function `addTokenListener` returns: filters out every occurrence of the callback. */
    method Unsubscribe(callback: ListenerId)
      modifies this
      ensures listeners == RemoveAll(old(listeners), callback)
      ensures state == old(state) && systemPrompt == old(systemPrompt) && timer == old(timer)
      ensures currentModelPath == old(currentModelPath) && delivered == old(delivered)
    {
      listeners := RemoveAll(listeners, callback);
    }

    /** `removeAllListeners`: an empty array. */
    method RemoveAllListeners()
      modifies this
      ensures listeners == []
      ensures state == old(state) && systemPrompt == old(systemPrompt) && timer == old(timer)
      ensures currentModelPath == old(currentModelPath) && delivered == old(delivered)
    {
      listeners := [];
    }
  }
}
