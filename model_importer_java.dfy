/**
 * `ModelImporterPlugin.importFromUri` (Java): argument guards, the size probe, the destination under
 * the private `models` directory, the streaming copy with throttled `importProgress` events, and the
 * single settlement of the call.
 */
module ModelImporterJava {
  import opened Common
  import opened JsString
  import opened ImportCopy

  /** Rejection when the content resolver hands back a null stream. */
  const NullStreamMessage: string := "No se pudo abrir el InputStream del URI"

  /** A `uri` argument that is null or empty is refused. */
  predicate UriMissing(uri: Option<string>) {
    uri.None? || uri.value == []
  }

  /** The destination name: the given one, or "model.gguf" when it is null or empty. */
  function FileName(given: Option<string>): (name: string)
    ensures name != []
    ensures given.Some? && given.value != [] ==> name == given.value
    ensures given.None? || given.value == [] ==> name == DefaultFileName
  {
    if given.None? || given.value == [] then DefaultFileName else given.value
  }

  /** What one call does, given how the device answers. */
  function Run(call: CallArgs, device: Device, filesDir: string): ImportRun {
    if UriMissing(call.uri) then ImportRun(Rejected(UriRequired), None, [])
    else
      var name := FileName(call.fileName);
      var path := ChildPath(ModelsDir(filesDir), name);
      match device.input
      case OpenThrows(message) => ImportRun(Rejected(ImportErrorPrefix + message), None, [])
      case ReturnsNull =>
        if device.outputFailure.Some? then ImportRun(Rejected(ImportErrorPrefix + device.outputFailure.value), None, [])
        else ImportRun(Rejected(NullStreamMessage), Some(OutputFile(path, [])), [])
      case Opens(chunks, failure) =>
        if device.outputFailure.Some? then ImportRun(Rejected(ImportErrorPrefix + device.outputFailure.value), None, [])
        else
          var events := Emitted(chunks, TotalBytes(device.probe), 0, 0);
          var output := Some(OutputFile(path, Flatten(chunks)));
          if failure.Some? then ImportRun(Rejected(ImportErrorPrefix + failure.value), output, events)
          else if device.closeFailure.Some? then ImportRun(Rejected(ImportErrorPrefix + device.closeFailure.value), output, events)
          else ImportRun(Resolved(ImportResult(path, |Flatten(chunks)|, name)), output, events)
  }

  /**
   * `importFromUri(call)`: settles the call once, leaves the destination file and the notified
   * events as `Run` describes them, and touches no other file.
   */
  method ImportFromUri(call: CallArgs, device: Device, filesDir: string, store: FileStore, channel: EventChannel)
    returns (s: Settlement)
    requires WellFormed(device)
    modifies store, channel
    ensures s == Run(call, device, filesDir).settlement
    ensures channel.sent == old(channel.sent) + Run(call, device, filesDir).events
    ensures store.files == Written(old(store.files), Run(call, device, filesDir).output)
  {
    if call.uri.None? || call.uri.value == [] {
      return Rejected(UriRequired);
    }
    var fileName := FileName(call.fileName);
    // takePersistableUriPermission: a failure is swallowed and changes nothing modelled here.
    var totalBytes := TotalBytes(device.probe);
    var outFile := ChildPath(ModelsDir(filesDir), fileName);
    match device.input
    case OpenThrows(message) =>
      return Rejected(ImportErrorPrefix + message);
    case ReturnsNull =>
      if device.outputFailure.Some? {
        return Rejected(ImportErrorPrefix + device.outputFailure.value);
      }
      store.Open(outFile);
      // A failing close of the output after this rejection reaches the outer catch, whose second
      // settlement of the already settled call has no effect.
      return Rejected(NullStreamMessage);
    case Opens(chunks, failure) =>
      var input := new InputStream(chunks, failure);
      if device.outputFailure.Some? {
        return Rejected(ImportErrorPrefix + device.outputFailure.value);
      }
      store.Open(outFile);
      var bytesCopied, thrown := CopyStream(input, store, outFile, totalBytes, channel);
      if thrown.Some? {
        return Rejected(ImportErrorPrefix + thrown.value);
      }
      // flush, then getFD().sync(): a sync failure is swallowed.
      // Leaving the try-with-resources closes both streams; a failing close reaches the outer catch.
      if device.closeFailure.Some? {
        return Rejected(ImportErrorPrefix + device.closeFailure.value);
      }
      return Resolved(ImportResult(outFile, bytesCopied, fileName));
  }

  /**
   * The call is rejected with "uri requerido" exactly when `uri` is null or empty, and then nothing
   * is written and nothing is notified.
   */
  lemma UriGuard(call: CallArgs, device: Device, filesDir: string)
    ensures Run(call, device, filesDir).settlement == Rejected(UriRequired) <==> UriMissing(call.uri)
    ensures UriMissing(call.uri) ==> Run(call, device, filesDir).output == None && Run(call, device, filesDir).events == []
  {
    var run := Run(call, device, filesDir);
    if run.settlement.Rejected? && !UriMissing(call.uri) && run.settlement.message != NullStreamMessage {
      var m :| run.settlement.message == ImportErrorPrefix + m;
      PrefixedMessageDiffers(m, UriRequired);
    }
  }

  /**
   * The call resolves exactly when the uri is present, the stream opens and ends without an
   * exception, the destination opens and both close cleanly; it then reports the destination path, the number of bytes
   * copied and the name used, and the destination holds exactly the source's bytes in order.
   */
  lemma ResolvesWithCopy(call: CallArgs, device: Device, filesDir: string)
    ensures var run := Run(call, device, filesDir);
      run.settlement.Resolved? <==>
        && !UriMissing(call.uri) && device.input.Opens? && device.input.failure.None?
        && device.outputFailure.None? && device.closeFailure.None?
    ensures var run := Run(call, device, filesDir);
      run.settlement.Resolved? ==>
        var path := ChildPath(ModelsDir(filesDir), FileName(call.fileName));
        && run.output == Some(OutputFile(path, Flatten(device.input.chunks)))
        && run.settlement.result == ImportResult(path, |run.output.value.content|, FileName(call.fileName))
  {
  }

  /** Every rejection is "uri requerido", the null-stream message, or carries the import-error prefix. */
  lemma RejectionMessages(call: CallArgs, device: Device, filesDir: string)
    ensures var s := Run(call, device, filesDir).settlement;
      s.Rejected? ==> s.message == UriRequired || s.message == NullStreamMessage || StartsWith(s.message, ImportErrorPrefix)
  {
    var s := Run(call, device, filesDir).settlement;
    if s.Rejected? && s.message != UriRequired && s.message != NullStreamMessage {
      var m :| s.message == ImportErrorPrefix + m;
      assert s.message[..|ImportErrorPrefix|] == ImportErrorPrefix;
    }
  }

  /**
   * Progress events strictly increase and are all at least 1; none is sent when the size is
   * unknown; when the source is exactly as long as the reported size, every event is at most 100,
   * there are at most 100 of them, and the last one reports 100 percent of every byte.
   */
  lemma ProgressEvents(call: CallArgs, device: Device, filesDir: string)
    requires WellFormed(device)
    ensures var events := Run(call, device, filesDir).events;
      && StrictlyIncreasing(events)
      && (forall k :: 0 <= k < |events| ==> events[k].progress >= 1)
      && (TotalBytes(device.probe) <= 0 ==> events == [])
    ensures var events := Run(call, device, filesDir).events;
      var total := TotalBytes(device.probe);
      !UriMissing(call.uri) && device.input.Opens? && device.outputFailure.None?
      && total > 0 && |Flatten(device.input.chunks)| == total ==>
        && (forall k :: 0 <= k < |events| ==> events[k].progress <= 100)
        && |events| <= 100
        && events != [] && Last(events) == Progress(100, total, total)
  {
    var total := TotalBytes(device.probe);
    if !UriMissing(call.uri) && device.input.Opens? && device.outputFailure.None? {
      var chunks := device.input.chunks;
      var events := Emitted(chunks, total, 0, 0);
      EmittedIncreasing(chunks, total, 0, 0);
      if total <= 0 {
        EmittedNoneWithoutTotal(chunks, total, 0, 0);
      }
      if total > 0 && |Flatten(chunks)| == total {
        EmittedAtMost100(chunks, total, 0, 0);
        IncreasingCount(events, 0, 100);
        assert chunks != [];
        EmittedEndsAt100(chunks, total, 0, 0);
      }
    }
  }
}
