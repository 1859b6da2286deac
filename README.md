# converse-local: a verified model of the local-model import and chat core

converse-local is a mobile banking assistant. It runs a GGUF language model on the device. This
project models, in Dafny, the parts of it that decide things:

- **Streaming model import.** `ModelImporterPlugin.importFromUri` exists in Java and in Kotlin.
  It copies a picked file into the app's private `models` directory in reads of at most 64 KiB.
  It notifies `importProgress` whenever the whole percentage copied grows. It resolves with
  `{destPath, fileSize, fileName}`, or rejects.
- **Import client.** `importarModeloPorStreaming` turns a file-picker answer into the importer's arguments.
- **Chat store.** The zustand store holds messages, streamed chunks, the generation flag and the persisted settings.
- **Chat screen.** This covers the prompt sent to the engine and the guards of sending a message.
- **File helpers.** These cover the `.gguf` check, the names and paths under `Models/`, the model listing and the picker's decisions.
- **Mock engines.** There are two: the `MockLocalLLM` class and the `LocalLLM` plugin object. Each has its
  status, its token-listener registry and its word-by-word token streaming.

Code that changes state in place becomes a Dafny `class` whose methods are proved against
specification functions. This covers the copy loop, the file store, the event channel, the engines and
the chat screen. The properties are then proved as lemmas about those functions. Pure logic is
written as functions: the store's reducers, the prompt, the names and paths, and the import outcome.

Platform answers are parameters, each given as an answer or the exception it throws:

- the content resolver, the file system, the picker, the clock, the random choices;
- whether a listener or the engine throws.

A string is a sequence of characters, and a byte stream is the sequence of its reads.

A call from the web client reaches the Java plugin, which is registered as "ModelImporter". The
Kotlin plugin is registered as "ModelImportert". Both are modelled.

## Model

| member | source | states |
|---|---|---|
| ImportCopy.TotalBytes | android/app/src/main/java/app/lovable/e24ddf4173894a6b8cc3ce614c39dec3/plugins/ModelImporterPlugin.java:52-58 | an opened descriptor gives its reported length, which may be -1 for an unknown size; no descriptor, or a probe that throws, gives 0 |
| ImportCopy.Flatten | android/app/src/main/java/app/lovable/e24ddf4173894a6b8cc3ce614c39dec3/plugins/ModelImporterPlugin.java:77-79 | no contract of its own: the bytes of the reads in order; CopyStream proves the destination ends equal to it and bytesCopied equal to its length |
| ImportCopy.ToInt32 | android/app/src/main/java/app/lovable/e24ddf4173894a6b8cc3ce614c39dec3/plugins/ModelImporterPlugin.java:82 | the `(int)` cast gives a value in the 32-bit range that is congruent to its operand modulo 2^32, and leaves a value already in range alone |
| ImportCopy.Percent | android/app/src/main/java/app/lovable/e24ddf4173894a6b8cc3ce614c39dec3/plugins/ModelImporterPlugin.java:82 | no contract of its own: PercentBounds, OverlongSourceExceeds100, WrappedPercentSilent and OneByteTotalWraps state the truncated and narrowed percentage |
| ImportCopy.Emitted | android/app/src/main/java/app/lovable/e24ddf4173894a6b8cc3ce614c39dec3/plugins/ModelImporterPlugin.java:77-91 | no contract of its own: the events of the throttled loop; CopyStream proves the channel receives exactly these, and EmittedIncreasing, EmittedNoneWithoutTotal, EmittedReports, EmittedAtMost100 and EmittedEndsAt100 state their properties |
| ImportCopy.InputStream.Read | android/app/src/main/java/app/lovable/e24ddf4173894a6b8cc3ce614c39dec3/plugins/ModelImporterPlugin.java:75-77 | a read copies the next chunk into the front of the buffer and reports its length; once the chunks are exhausted it reports end of stream, or throws the pending IOException, and leaves the buffer alone |
| ImportCopy.FileStore.Open | android/app/src/main/java/app/lovable/e24ddf4173894a6b8cc3ce614c39dec3/plugins/ModelImporterPlugin.java:67-68 | opening the destination stream creates or truncates that one file |
| ImportCopy.FileStore.Write | android/app/src/main/java/app/lovable/e24ddf4173894a6b8cc3ce614c39dec3/plugins/ModelImporterPlugin.java:78 | `write(buffer, 0, n)` appends exactly the first n buffer bytes to that file and changes no other file |
| ImportCopy.EventChannel.NotifyListeners | android/app/src/main/java/app/lovable/e24ddf4173894a6b8cc3ce614c39dec3/plugins/ModelImporterPlugin.java:85-89 | one `importProgress` event is appended to what the listeners have seen |
| ImportCopy.CopyChunk | android/app/src/main/java/app/lovable/e24ddf4173894a6b8cc3ce614c39dec3/plugins/ModelImporterPlugin.java:78-90 | one turn after a read of n bytes appends exactly those bytes, adds n to the count, and notifies one event exactly when the truncated percentage exceeds the last one notified, which it then becomes |
| ImportCopy.CopyStream | android/app/src/main/java/app/lovable/e24ddf4173894a6b8cc3ce614c39dec3/plugins/ModelImporterPlugin.java:64-92 | after the loop the destination holds the concatenation of all reads in order, `bytesCopied` is its length, the events notified are exactly the throttled sequence `Emitted`, and the loop ends with the stream's exception if it threw |
| ImportCopy.CopyTurn | android/app/src/main/java/app/lovable/e24ddf4173894a6b8cc3ce614c39dec3/plugins/ModelImporterPlugin.java:77-91 | one turn keeps the loop's accounting: bytes written plus bytes still to read is the whole source, events notified plus events still due is the whole throttled sequence |
| ImportCopy.EmittedIncreasing | android/app/src/main/java/app/lovable/e24ddf4173894a6b8cc3ce614c39dec3/plugins/ModelImporterPlugin.java:65-90 | every notified percentage exceeds the last one notified before it, so the notified sequence is strictly increasing |
| ImportCopy.EmittedNoneWithoutTotal | android/app/src/main/java/app/lovable/e24ddf4173894a6b8cc3ce614c39dec3/plugins/ModelImporterPlugin.java:81 | with a total of 0 or less no event is ever notified |
| ImportCopy.EmittedReports | android/app/src/main/java/app/lovable/e24ddf4173894a6b8cc3ce614c39dec3/plugins/ModelImporterPlugin.java:82-89 | every event reports the total, a byte count reached after some read and not beyond the bytes copied, and the truncated percentage of that count |
| ImportCopy.PercentBounds | android/app/src/main/java/app/lovable/e24ddf4173894a6b8cc3ce614c39dec3/plugins/ModelImporterPlugin.java:82 | for 0 <= copied <= total the truncated percentage lies in 0..100, is below 100 while bytes are missing, and is 100 at the total |
| ImportCopy.IncreasingCount | android/app/src/main/java/app/lovable/e24ddf4173894a6b8cc3ce614c39dec3/plugins/ModelImporterPlugin.java:83 | strictly increasing percentages within (lo, hi] number at most hi - lo |
| ImportCopy.EmittedAtMost100 | android/app/src/main/java/app/lovable/e24ddf4173894a6b8cc3ce614c39dec3/plugins/ModelImporterPlugin.java:82-90 | when the reads add up to no more than the total, no event exceeds 100 |
| ImportCopy.EmittedEndsAt100 | android/app/src/main/java/app/lovable/e24ddf4173894a6b8cc3ce614c39dec3/plugins/ModelImporterPlugin.java:77-100 | when the reads add up to exactly the total, an event is notified and the last one is 100 percent of every byte |
| ImportCopy.OverlongSourceExceeds100 | android/app/src/main/java/app/lovable/e24ddf4173894a6b8cc3ce614c39dec3/plugins/ModelImporterPlugin.java:82-90 | nothing clamps the percentage: a first read of at least twice the reported size is notified with a percentage of 200 or more |
| ImportCopy.WrappedPercentSilent | android/app/src/main/java/app/lovable/e24ddf4173894a6b8cc3ce614c39dec3/plugins/ModelImporterPlugin.java:82-84 | once the quotient passes the 32-bit range the percentage is negative, that read is not notified and `lastProgressUpdate` keeps its value |
| ImportCopy.OneByteTotalWraps | android/app/src/main/java/app/lovable/e24ddf4173894a6b8cc3ce614c39dec3/plugins/ModelImporterPlugin.java:82 | with a reported size of 1, 21474836 copied bytes give 2147483600 and one more byte gives -2147483596, which is not notified |
| ImportCopy.EmittedStep | android/app/src/main/java/app/lovable/e24ddf4173894a6b8cc3ce614c39dec3/plugins/ModelImporterPlugin.java:77-91 | one turn of the loop appends its read and notifies at most one event, as the specification functions unfold |
| ImportCopy.PrefixedMessageDiffers | android/app/src/main/java/app/lovable/e24ddf4173894a6b8cc3ce614c39dec3/plugins/ModelImporterPlugin.java:104-106 | a message carrying the import-error prefix is never one of the shorter fixed rejections |
| ModelImporterJava.FileName | android/app/src/main/java/app/lovable/e24ddf4173894a6b8cc3ce614c39dec3/plugins/ModelImporterPlugin.java:39-40 | the destination name is never empty: the given name when it is non-empty, "model.gguf" when it is null or empty |
| ModelImporterJava.Run | android/app/src/main/java/app/lovable/e24ddf4173894a6b8cc3ce614c39dec3/plugins/ModelImporterPlugin.java:30-107 | no contract of its own: the settlement, destination file and events of one call; ImportFromUri is proved to do exactly this, and UriGuard, ResolvesWithCopy, RejectionMessages and ProgressEvents state its meaning |
| ModelImporterJava.ImportFromUri | android/app/src/main/java/app/lovable/e24ddf4173894a6b8cc3ce614c39dec3/plugins/ModelImporterPlugin.java:30-107 | the call settles as `Run` says, the listeners receive exactly `Run`'s events, and the private files change only by `Run`'s output file |
| ModelImporterJava.UriGuard | android/app/src/main/java/app/lovable/e24ddf4173894a6b8cc3ce614c39dec3/plugins/ModelImporterPlugin.java:33-37 | the call is rejected with "uri requerido" if and only if `uri` is null or empty, and then nothing is written or notified |
| ModelImporterJava.ResolvesWithCopy | android/app/src/main/java/app/lovable/e24ddf4173894a6b8cc3ce614c39dec3/plugins/ModelImporterPlugin.java:60-102 | the call resolves if and only if the uri is present, the stream opens and is read to its end, the destination opens and both streams close cleanly; it then reports the destination path, the number of bytes copied and the name, and the destination holds the source bytes in order |
| ModelImporterJava.RejectionMessages | android/app/src/main/java/app/lovable/e24ddf4173894a6b8cc3ce614c39dec3/plugins/ModelImporterPlugin.java:70-106 | every rejection is "uri requerido", the null-stream message, or starts with "Error importando modelo: " |
| ModelImporterJava.ProgressEvents | android/app/src/main/java/app/lovable/e24ddf4173894a6b8cc3ce614c39dec3/plugins/ModelImporterPlugin.java:52-92 | events strictly increase, are all at least 1, are absent when the size is unknown; when the source is exactly the reported size they are at most 100, at most 100 of them, the last being 100 percent with every byte |
| ModelImporterKotlin.FileName | android/app/src/main/java/app/lovable/e24ddf4173894a6b8cc3ce614c39dec3/plugins/ModelImportertPlugin.kt:16 | only a null name becomes "model.gguf"; an empty name is kept |
| ModelImporterKotlin.Run | android/app/src/main/java/app/lovable/e24ddf4173894a6b8cc3ce614c39dec3/plugins/ModelImportertPlugin.kt:13-83 | no contract of its own: the settlement, destination file and events of one call; ImportFromUri is proved to do exactly this, and UriGuard, FailuresCarryPrefix, ResolvesWithCopy, EmptyNameRejected, AgreesWithJava and ProgressEvents state its meaning |
| ModelImporterKotlin.ImportFromUri | android/app/src/main/java/app/lovable/e24ddf4173894a6b8cc3ce614c39dec3/plugins/ModelImportertPlugin.kt:13-83 | the call settles as `Run` says, notifies exactly `Run`'s events and writes only `Run`'s output |
| ModelImporterKotlin.UriGuard | android/app/src/main/java/app/lovable/e24ddf4173894a6b8cc3ce614c39dec3/plugins/ModelImportertPlugin.kt:15 | the call is rejected with "uri requerido" if and only if `uri` is null; an empty uri goes on |
| ModelImporterKotlin.FailuresCarryPrefix | android/app/src/main/java/app/lovable/e24ddf4173894a6b8cc3ce614c39dec3/plugins/ModelImportertPlugin.kt:44-82 | every other rejection carries the import-error prefix; a null stream rejects with "Error importando modelo: null"; a failed fsync rejects although the bytes were copied |
| ModelImporterKotlin.ResolvesWithCopy | android/app/src/main/java/app/lovable/e24ddf4173894a6b8cc3ce614c39dec3/plugins/ModelImportertPlugin.kt:41-78 | resolves if and only if the uri is present, the stream opens and is read to its end, the destination opens, the fsync succeeds and both streams close cleanly; the result then reports the path, the byte count and the name, and the destination holds the source bytes |
| ModelImporterKotlin.EmptyNameRejected | android/app/src/main/java/app/lovable/e24ddf4173894a6b8cc3ce614c39dec3/plugins/ModelImportertPlugin.kt:16-45 | an empty name is kept, so the destination is the models directory itself; when opening it fails the call is rejected with that exception, writes and notifies nothing, and never resolves |
| ModelImporterKotlin.AgreesWithJava | android/app/src/main/java/app/lovable/e24ddf4173894a6b8cc3ce614c39dec3/plugins/ModelImportertPlugin.kt:41-66 | on a call both accept with a non-empty name both plugins copy the same bytes and notify the same events, and settle alike unless the fsync fails or the stream is null |
| ModelImporterKotlin.ProgressEvents | android/app/src/main/java/app/lovable/e24ddf4173894a6b8cc3ce614c39dec3/plugins/ModelImportertPlugin.kt:30-66 | the same throttling facts as the Java loop: strictly increasing, at least 1, none without a size, at most 100 ending at 100 when the size is exact |
| ImportClient.ResolvePickSpec | src/lib/importModel.ts:50-60 | a picker that throws rejects with its message; no picked file fails with "No se seleccionó archivo" (if and only if); the uri is `path ?? uri` and the call goes ahead if and only if it is a non-empty string, otherwise "No se pudo obtener URI del archivo"; the name is the picked one or "model.gguf" only when absent |
| ImportClient.ResolvePick | src/lib/importModel.ts:50-60 | no contract of its own: the arguments built from a pick, or the error thrown; ResolvePickSpec, EmptyPathHidesUri and NoExtensionCheck state its meaning |
| ImportClient.EmptyPathHidesUri | src/lib/importModel.ts:58-60 | whatever `uri`, name and further files come with it, a first file whose `path` is empty fails the pick, because `??` does not skip an empty string |
| ImportClient.NoExtensionCheck | src/lib/importModel.ts:57-63 | for every non-empty path, any picked name goes to the importer unchanged, even an empty one or one the ".gguf" validator refuses, such as "notes.txt" |
| ImportClient.ClientPassesImporterGuards | src/lib/importModel.ts:57-63 | the arguments the client builds always pass the uri guard of both importers, and the importers store the file under the picked name (the Java one unless it is empty) |
| ImportClient.ImportarModeloPorStreaming | src/lib/importModel.ts:37-68 | a failed pick rejects with its message and calls nothing; otherwise the importer is called once with the resolved arguments and its settlement is returned unchanged; the handle is never released and `onProgress` never called |
| LlmStore.Initial | src/store/llmStore.ts:46-69 | a fresh store has no model, an idle engine, no messages, 1024 context tokens, 4 threads, the default Spanish banking prompt and Spanish forced |
| LlmStore.SetModelConfig | src/store/llmStore.ts:79-83 | a given `nCtx`/`nThreads` replaces the old value, an absent one keeps it, and nothing else changes |
| LlmStore.AddMessage | src/store/llmStore.ts:89-99 | exactly one message with the given role, text, id and timestamp is appended, the earlier messages and every other field are unchanged |
| LlmStore.UpdateLastAssistantChunk | src/store/llmStore.ts:101-124 | a streaming assistant message at the end grows by the chunk and the length stays; otherwise one streaming assistant message holding the chunk is appended; no other message and no other field changes; afterwards the chat ends in a streaming assistant message |
| LlmStore.SetIsGenerating | src/store/llmStore.ts:126-142 | the flag is set; stopping marks a streaming assistant message at the end complete and changes nothing else; starting touches only the flag; the number of messages never changes |
| LlmStore.ResetChat | src/store/llmStore.ts:144 | no messages, not generating, every other field unchanged |
| LlmStore.Partialize | src/store/llmStore.ts:148-155 | the stored record holds exactly modelPath, modelSize, nCtx, nThreads, systemPrompt and forceSpanish |
| LlmStore.PersistedFields | src/store/llmStore.ts:148-155 | two states store the same record if and only if they differ only in engine status, status message, messages and generation flag |
| LlmStore.ChatActionsNotPersisted | src/store/llmStore.ts:89-155 | adding, streaming, flagging and resetting never change what is stored |
| LlmStore.StreamedReply | src/store/llmStore.ts:101-124 | streaming chunks into a chat not ending in a streaming reply adds exactly one streaming assistant message whose text is the chunks concatenated in order |
| LlmStore.ConcatSnoc | src/store/llmStore.ts:107 | appending a chunk extends the concatenated text by that chunk |
| LlmStore.CompletedReply | src/store/llmStore.ts:101-142 | chunks followed by `setIsGenerating(false)` leave one complete assistant message holding the whole reply after the earlier messages |
| ChatScreen.PromptOpening | src/components/ChatScreen.tsx:68-72 | the opening of a prompt is decided by the system block alone, whatever follows the user's turn |
| ChatScreen.PromptStart | src/components/ChatScreen.tsx:68-72 | the prompt starts with "<SYSTEM>\n" if and only if the trimmed system prompt is non-empty, and then with the block around the untrimmed prompt; otherwise with "Usuario: " |
| ChatScreen.PromptUserTurn | src/components/ChatScreen.tsx:72 | right after the optional system block comes "Usuario: " + input + "\nAsistente:" |
| ChatScreen.ReminderIff | src/components/ChatScreen.tsx:74-76 | the prompt ends with " (Responde siempre en español)" if and only if Spanish is forced and the lower-cased system prompt lacks "español"; otherwise it ends with "\nAsistente:" |
| ChatScreen.MentionsSpanish | src/components/ChatScreen.tsx:68-74 | a system prompt with "español" in it has content and still mentions "español" once lower-cased |
| ChatScreen.DefaultPromptNoReminder | src/components/ChatScreen.tsx:65-79 | with the default system prompt and Spanish forced, the prompt is the system block plus the user's turn, with no reminder |
| ChatScreen.BuildFinalPrompt | src/components/ChatScreen.tsx:65-79 | no contract of its own: system block, user turn and reminder in that order; PromptStart, PromptUserTurn, ReminderIff and DefaultPromptNoReminder state its meaning |
| ChatScreen.SystemBlock | src/components/ChatScreen.tsx:68-70 | no contract of its own: PromptOpening and PromptStart state when the block is present and what it holds |
| ChatScreen.UserTurn | src/components/ChatScreen.tsx:72 | no contract of its own: PromptUserTurn states that it holds the input verbatim |
| ChatScreen.Reminder | src/components/ChatScreen.tsx:74-76 | no contract of its own: ReminderIff and MentionsSpanish state when it is added |
| ChatScreen.ChatScreenState.HandleSendMessage | src/components/ChatScreen.tsx:81-133 | blank input or a running generation changes nothing; an engine not ready only shows "Motor no disponible"; otherwise the input is cleared, the trimmed input is added as a user message, generation is flagged, the engine gets the final prompt, and a throwing engine clears the flag, appends the apology and shows "Error" |
| ChatScreen.ChatScreenState.Send | src/components/ChatScreen.tsx:93-131 | past the guards: the user message is added and generation flagged, the engine gets the final prompt, and a throwing engine clears the flag, appends the apology and shows "Error"; the text box is left to the caller |
| ChatScreen.SendOutcome | src/components/ChatScreen.tsx:93-131 | the user message holding the trimmed input is added before generation starts; a failed generation leaves the flag cleared and exactly one more message, the assistant's apology |
| FileUtils.ValidatorWiderThanListing | src/utils/fileUtils.ts:121-175 | every name the case-sensitive listing keeps is valid, but "MODEL.GGUF" is valid and not kept |
| FileUtils.IsValidGGUFFile | src/utils/fileUtils.ts:173-175 | no contract of its own: ValidatorWiderThanListing states which names pass |
| FileUtils.GetFileInfo | src/utils/fileUtils.ts:76-92 | a failed stat is rethrown; otherwise the info carries the path, the stat size, and the octet-stream type only for a regular file |
| FileUtils.FileInfoName | src/utils/fileUtils.ts:83 | the name is "unknown" for a path ending in '/', otherwise the non-empty, slash-free tail of the path |
| FileUtils.DeleteTarget | src/utils/fileUtils.ts:282-291 | the file deleted always lies under "Models/" |
| FileUtils.DeleteTargetRoundTrip | src/utils/fileUtils.ts:282-291 | deleting by the URI a stored model was given targets `Models/<name>` again; a path ending in '/' targets "Models/" itself |
| FileUtils.KeptSpec | src/utils/fileUtils.ts:120-144 | every listed file has a ".gguf" name, which the validator accepts, and comes from an entry whose stat answered; every such entry is listed |
| FileUtils.KeptOrder | src/utils/fileUtils.ts:120-144 | the listing keeps directory order: listing two runs of entries lists the first run's files, then the second's |
| FileUtils.Kept | src/utils/fileUtils.ts:120-144 | no contract of its own: KeptSpec and KeptOrder state which entries are kept and in what order, and ListModelFiles is proved to return it |
| FileUtils.ListModelFiles | src/utils/fileUtils.ts:111-155 | the loop returns exactly the kept files; a missing directory lists as empty, any other readdir failure is rethrown |
| FileUtils.PickedName | src/utils/fileUtils.ts:223 | the name is never empty: the picked name when non-empty, else "model.gguf" |
| FileUtils.PickDecisions | src/utils/fileUtils.ts:218-271 | null if and only if nothing was picked; an invalid name throws before any write; every write goes to `Models/<name>` of a valid name; a stored file is reported under its name and URI with a missing size as 0 |
| FileUtils.PickAndStoreNative | src/utils/fileUtils.ts:218-271 | no contract of its own: the outcome and the write of a native pick; PickDecisions and PickPrefersData state its meaning |
| FileUtils.PickPrefersData | src/utils/fileUtils.ts:236-258 | picked data, when present, is what is written, whatever the blob |
| FileUtils.PickWeb | src/utils/fileUtils.ts:184-207 | a browser pick is described if and only if its name is valid, under "Documents/Models/<name>", with its own type or octet-stream |
| FileUtils.CopyToModelsDirectory | src/utils/fileUtils.ts:44-71 | a failed read is rethrown before any write; otherwise the data goes to `Models/<name>` and the file's URI is returned unless the write fails |
| TokenListeners.ReceivedAppend | src/modules/local-llm/mock.ts:84-90 | what a listener receives from two runs of calls is what it receives from each, in order |
| TokenListeners.ReceivedBroadcast | src/plugins/local-llm/index.ts:123 | one broadcast hands a token to a listener once per registration |
| TokenListeners.ReceivedStream | src/modules/local-llm/mock.ts:81-90 | a listener registered once receives every streamed token exactly once and in order; an unregistered one receives nothing |
| TokenListeners.StreamAppend | src/plugins/local-llm/index.ts:116-125 | streaming two series of tokens in turn is streaming their concatenation |
| TokenListeners.CountIn | src/plugins/local-llm/index.ts:143-148 | a listener is registered if and only if it is counted |
| TokenListeners.NoDupCount | src/modules/local-llm/mock.ts:18 | in a `Set` every listener is counted at most once |
| TokenListeners.SetAddSpec | src/modules/local-llm/mock.ts:120-121 | `Set.add` registers the callback once, keeps the others and no duplicates, and adding it twice equals adding it once |
| TokenListeners.RemoveAllSpec | src/plugins/local-llm/index.ts:146 | unsubscribing drops every occurrence of that callback, keeps every other one as often as before, and keeps a set free of duplicates |
| TokenListeners.RemoveAllAppend | src/plugins/local-llm/index.ts:146 | filtering keeps the remaining callbacks in order |
| TokenListeners.RemoveAbsent | src/plugins/local-llm/index.ts:146 | unsubscribing a callback that is not registered changes nothing |
| MockLocalLlm.WordTokensConcat | src/modules/local-llm/mock.ts:78-82 | the streamed tokens, concatenated, equal the words joined with spaces |
| MockLocalLlm.WordTokens | src/modules/local-llm/mock.ts:78-82 | no contract of its own: WordTokensConcat and StreamedResponse state that the tokens rejoin to the answer |
| MockLocalLlm.StreamedResponse | src/modules/local-llm/mock.ts:68-82 | the tokens of each canned answer, concatenated, are exactly that answer |
| MockLocalLlm.ListenerReceivesResponse | src/modules/local-llm/mock.ts:78-90 | after a generation every registered listener has received the whole answer token by token, in order; others nothing |
| MockLocalLlm.MockLocalLLM.LoadModel | src/modules/local-llm/mock.ts:24-47 | returns true and ends ready with the last path segment (or "unknown-model.gguf") as name, the drawn size and "Q4_K_M"; only status and path change |
| MockLocalLlm.MockLocalLLM.Generate | src/modules/local-llm/mock.ts:55-99 | throws "Model not ready. Load a model first." unless ready, "Generation already in progress. Call stop() first." while generating, and then streams nothing; otherwise streams the chosen answer's tokens to every listener and ends not generating |
| MockLocalLlm.MockLocalLLM.SetSystemPrompt | src/modules/local-llm/mock.ts:49-53 | the system prompt is replaced and nothing else changes |
| MockLocalLlm.MockLocalLLM.StreamWords | src/modules/local-llm/mock.ts:81-95 | the word loop broadcasts each word, with a space unless last, in order |
| MockLocalLlm.MockLocalLLM.Emit | src/modules/local-llm/mock.ts:84-90 | every listener is called with the word, in registry order, whether or not an earlier one throws |
| MockLocalLlm.MockLocalLLM.Stop | src/modules/local-llm/mock.ts:101-108 | no generation runs afterwards; nothing else changes |
| MockLocalLlm.MockLocalLLM.Reset | src/modules/local-llm/mock.ts:110-114 | as `stop` |
| MockLocalLlm.MockLocalLLM.GetStatus | src/modules/local-llm/mock.ts:116-118 | returns the current status as a value |
| MockLocalLlm.MockLocalLLM.AddTokenListener | src/modules/local-llm/mock.ts:120-121 | the registry becomes `Set.add` of the callback and stays free of duplicates |
| MockLocalLlm.MockLocalLLM.Unsubscribe | src/modules/local-llm/mock.ts:123-125 | the registry loses exactly that callback |
| MockLocalLlm.MockLocalLLM.RemoveAllListeners | src/modules/local-llm/mock.ts:128-130 | the registry is empty |
| LocalLlmPlugin.AnswerStart | src/plugins/local-llm/index.ts:95-100 | a filled-in template is non-empty and starts with the first character of its opening, which is how the tag is told apart |
| LocalLlmPlugin.TemplateChoice | src/plugins/local-llm/index.ts:88-101 | the Spanish banking answer if and only if the lower-cased prompt has "bancario" and "español", the English one if and only if "bancario" alone, the generic one if and only if no "bancario" |
| LocalLlmPlugin.TaggedIff | src/plugins/local-llm/index.ts:104-106 | the answer starts with "[Sistema aplicado] " if and only if a system prompt is set |
| LocalLlmPlugin.AnswerQuotes | src/plugins/local-llm/index.ts:95-100 | a filled-in template holds the quoted input right after its opening |
| LocalLlmPlugin.QuotesInput | src/plugins/local-llm/index.ts:95-106 | every answer quotes the user's input |
| LocalLlmPlugin.Answer | src/plugins/local-llm/index.ts:95-100 | no contract of its own: AnswerStart and AnswerQuotes state how a template is filled in |
| LocalLlmPlugin.Template | src/plugins/local-llm/index.ts:88-101 | no contract of its own: TemplateChoice states which template a system prompt selects |
| LocalLlmPlugin.MockResponse | src/plugins/local-llm/index.ts:104-106 | no contract of its own: TaggedIff and QuotesInput state the tag and the quoted input |
| LocalLlmPlugin.EmissionConcat | src/plugins/local-llm/index.ts:109-122 | the emitted tokens, concatenated, are the joined parts plus one trailing space |
| LocalLlmPlugin.Emission | src/plugins/local-llm/index.ts:109-122 | no contract of its own: EmissionConcat and StreamedResponse state what the tokens add up to |
| LocalLlmPlugin.StreamedResponse | src/plugins/local-llm/index.ts:109-125 | streaming an answer hands out the whole answer followed by one extra space |
| LocalLlmPlugin.ListenerReceivesResponse | src/plugins/local-llm/index.ts:116-125 | a listener registered once receives the whole answer plus a space when the interval runs out; an unregistered one nothing |
| LocalLlmPlugin.LocalLLM.LoadModel | src/plugins/local-llm/index.ts:49-72 | answers ok and ends ready with the last path segment (or "unknown.gguf") as name and the drawn size; only state and path change |
| LocalLlmPlugin.LocalLLM.Generate | src/plugins/local-llm/index.ts:79-126 | does nothing unless ready; otherwise replaces any running interval by one that will stream the split answer from its first token |
| LocalLlmPlugin.LocalLLM.SetSystemPrompt | src/plugins/local-llm/index.ts:74-77 | the system prompt is replaced and nothing else changes |
| LocalLlmPlugin.LocalLLM.Tick | src/plugins/local-llm/index.ts:116-125 | past the last token the interval clears itself; otherwise the next token plus a space reaches every listener in order and the index advances, keeping delivered-plus-pending constant; a throwing listener stops the broadcast after itself and the same token is sent again next time |
| LocalLlmPlugin.LocalLLM.Stop | src/plugins/local-llm/index.ts:128-131 | the interval is cleared and nothing is pending; nothing else changes |
| LocalLlmPlugin.LocalLLM.Reset | src/plugins/local-llm/index.ts:133-137 | only the interval is cleared; state and model stay |
| LocalLlmPlugin.LocalLLM.GetStatus | src/plugins/local-llm/index.ts:139-141 | returns the current state |
| LocalLlmPlugin.LocalLLM.AddTokenListener | src/plugins/local-llm/index.ts:143-145 | the callback is pushed, counted once more even when already present |
| LocalLlmPlugin.LocalLLM.Unsubscribe | src/plugins/local-llm/index.ts:146 | the array becomes the filter without that callback |
| LocalLlmPlugin.LocalLLM.RemoveAllListeners | src/plugins/local-llm/index.ts:150-152 | the array is empty |
| JsString.TrimStartSpec | src/components/ChatScreen.tsx:82 | drops exactly the leading whitespace: the result is a suffix, everything dropped is whitespace, and it starts with a non-whitespace character |
| JsString.TrimEndSpec | src/components/ChatScreen.tsx:82 | drops exactly the trailing whitespace: the result is a prefix, everything dropped is whitespace, and it ends with a non-whitespace character |
| JsString.TrimStart | src/components/ChatScreen.tsx:82 | no contract of its own: TrimStartSpec states what it drops |
| JsString.TrimEnd | src/components/ChatScreen.tsx:82 | no contract of its own: TrimEndSpec states what it drops |
| JsString.Trim | src/components/ChatScreen.tsx:82 | no contract of its own: TrimEmptyIff and TrimEnds state when it is empty and how it begins and ends |
| JsString.ToLower | src/components/ChatScreen.tsx:74 | no contract of its own: ToLowerAppend, ToLowerFixed and ToLowerIdempotent state what lower-casing does |
| JsString.ToLowerIdempotent | src/components/ChatScreen.tsx:74 | lower-casing a lower-cased string changes nothing |
| JsString.ToLowerAppend | src/components/ChatScreen.tsx:74 | lower-casing a concatenation lower-cases each piece apart |
| JsString.ToLowerFixed | src/components/ChatScreen.tsx:74 | a string is its own lower-case form if and only if no character of it is changed by lower-casing |
| JsString.TrimEmptyIff | src/components/ChatScreen.tsx:82 | a string trims to nothing if and only if all of it is whitespace |
| JsString.TrimEnds | src/components/ChatScreen.tsx:93 | a trimmed string begins and ends with a non-whitespace character |
| JsString.Split | src/modules/local-llm/mock.ts:78 | a split always yields at least one part; the parts themselves are fixed by SplitPartsFree (no part holds the separator) and JoinSplit (joining them gives back the string) |
| JsString.SplitPartsFree | src/plugins/local-llm/index.ts:109 | no part of a split holds the separator |
| JsString.JoinSplit | src/modules/local-llm/mock.ts:78 | joining the parts of a split on the same separator gives back the string |
| JsString.SplitLast | src/utils/fileUtils.ts:83 | the last part of a split holds no separator and is the tail after the last separator |
| JsString.LastSegmentAfter | src/utils/fileUtils.ts:285 | the last segment of `p/n` is `n` when `n` has no '/' |
| JsString.LastSegmentWhole | src/utils/fileUtils.ts:285 | a name without '/' is its own last segment |
| JsString.LastSegmentOr | src/modules/local-llm/mock.ts:32 | no contract of its own: LastSegmentOrSpec states when it gives the fallback and what tail it gives otherwise |
| JsString.LastSegmentOrSpec | src/modules/local-llm/mock.ts:32 | `split('/').pop() \|\| fallback` is the fallback for a path ending in '/', otherwise the non-empty slash-free tail |

## Left out

- Platform I/O is reduced to answers passed in: the Android content resolver, `FileOutputStream`, the fsync and the closing of the two streams, Capacitor `Filesystem`, `FilePicker`, `FileReader` and base64 handling.
- `mkdirs` and `flush` are not modelled: a failed `mkdirs` shows up only as the destination failing to open, and a failing `flush` is not captured.
- A failing close after the Java null-stream rejection reaches the outer catch. Its second settlement of the already-settled call is taken to have no effect, so it is not modelled.
- The persistable-permission grant is left out. Its failure is swallowed in both plugins and changes nothing modelled.
- A failure of `FileOutputStream.write` is not modelled separately; a failing read stands for any IOException inside the loop. A write that fails after part of a chunk is not captured.
- ImportCopy.Percent: the `(int)` cast of the quotient, and Kotlin's `toInt()`, are modelled as a 32-bit wrap. The `long` product `bytesCopied * 100` is taken as exact, although it would wrap for sources beyond about 92 petabytes.
- ImportCopy.CopyStream: `bytesCopied` is an unbounded integer, so the `long` counter's own wrap beyond 2^63 bytes is not captured.
- ModelImporterKotlin.Run: the destination's failure to open is a free answer. With an empty `fileName` the destination is the models directory itself, which a real device always refuses; `Run` alone admits a device that opens it, and only EmptyNameRejected, under `DirectoryRefused`, excludes that resolution.
- ModelImporterJava.Run: `getLength()` may return -1 (unknown length). This is modelled as any integer, and a negative total disables events, as the code does.
- Java's `getMessage()` may be null, which is printed as "null". An exception message is modelled as a string, so a null message is the string "null".
- The Java plugin ignores a failed fsync. The model has no separate rejection for it.
- The `echo` method and the `eco()` function only echo a value back.
- In `updateLastAssistantChunk` and `setIsGenerating` the last message object is changed in place, and the previous state shares it. The model replaces the message by value, so the aliasing with the old state is not captured.
- `isStreaming` left undefined is modelled as `false`.
- ChatScreen.ChatScreenState.HandleSendMessage: the `setIsGenerating(true)`/token-listener `useEffect` in React is not modelled. Neither are toasts' descriptions, focus and scrolling.
- `toLowerCase` is modelled for ASCII and Latin-1 capitals only. Other scripts and characters outside the BMP are not case-folded.
- `formatFileSize` uses floating point (`Math.log`, `toFixed`), so it is left out. This includes its zero case, "0 B".
- `getModelsDirectory` and `deleteModelFile` only forward to the file system.
- FileUtils.DocumentUri: the URI Capacitor `getUri` returns for a file under Documents is assumed to be the Documents URI, a '/', and the path, so a stored model's URI ends in `/Models/<name>`. DeleteTargetRoundTrip relies on that shape.
- Timers and delays in the mocks are left out: `setTimeout`, the awaited delays, and the 40 ms interval (modelled as explicit ticks).
- Random choices are parameters: the canned answer, sizes, message ids and timestamps.
- MockLocalLlm.MockLocalLLM.LoadModel: the intermediate "loading" status is visible only while the load is awaited. The model states only the final status.
- MockLocalLlm.MockLocalLLM.Generate: a `stop()` racing an in-flight generation is concurrency and is not modelled. The word loop always runs to its end.
- The React screens other than the chat send path are left out: ModelManagerScreen, SettingsScreen and the navigation.
- The zustand `persist` storage mechanics are left out; only the `partialize` projection is modelled.
- The trivial setters of the store are left out: `setModelPath`, `setModelSize`, `setEngineStatus`, `setSystemPrompt` and `setForceSpanish`.
- Path normalisation by `java.io.File` is modelled only as joining with '/'.
