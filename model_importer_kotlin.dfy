/**
 * `ModelImportertPlugin.importFromUri` (Kotlin): the same copy and progress loop as the Java plugin,
 * with weaker guards (only a null `uri` is refused, only a null name is defaulted), a null stream
 * that fails through `input!!`, and an fsync whose failure rejects the call.
 */
module ModelImporterKotlin {
  import opened Common
  import opened ImportCopy
  import Java = ModelImporterJava

  /** The message Kotlin interpolates for an exception without one, as `input!!` throws. */
  const NullMessage: string := "null"

  /** `call.getString("fileName") ?: "model.gguf"`: only a null name is replaced. */
  function FileName(given: Option<string>): (name: string)
    ensures given.Some? ==> name == given.value
    ensures given.None? ==> name == DefaultFileName
  {
    given.GetOr(DefaultFileName)
  }

  /** What one call does, given how the device answers. */
  function Run(call: CallArgs, device: Device, filesDir: string): ImportRun {
    if call.uri.None? then ImportRun(Rejected(UriRequired), None, [])
    else
      var name := FileName(call.fileName);
      var path := ChildPath(ModelsDir(filesDir), name);
      match device.input
      case OpenThrows(message) => ImportRun(Rejected(ImportErrorPrefix + message), None, [])
      case ReturnsNull =>
        if device.outputFailure.Some? then ImportRun(Rejected(ImportErrorPrefix + device.outputFailure.value), None, [])
        else ImportRun(Rejected(ImportErrorPrefix + NullMessage), Some(OutputFile(path, [])), [])
      case Opens(chunks, failure) =>
        if device.outputFailure.Some? then ImportRun(Rejected(ImportErrorPrefix + device.outputFailure.value), None, [])
        else
          var events := Emitted(chunks, TotalBytes(device.probe), 0, 0);
          var output := Some(OutputFile(path, Flatten(chunks)));
          if failure.Some? then ImportRun(Rejected(ImportErrorPrefix + failure.value), output, events)
          else if device.syncFailure.Some? then ImportRun(Rejected(ImportErrorPrefix + device.syncFailure.value), output, events)
          else if device.closeFailure.Some? then ImportRun(Rejected(ImportErrorPrefix + device.closeFailure.value), output, events)
          else ImportRun(Resolved(ImportResult(path, |Flatten(chunks)|, name)), output, events)
  }

  /**
   * `importFromUri(call)`: settles the call once, leaves the destination file and the notified
   * events as `Run` describes them, and touches no other file.
   */
  method ImportFromUri(call: CallArgs, device: Device, filesDir: string, store: FileStore, channel: EventChannel)
    returns (s: Settlement)
    requires WellFormed(device)
    modifies store, channel
    ensures s == Run(call, device, filesDir).settlement
    ensures channel.sent == old(channel.sent) + Run(call, device, filesDir).events
    ensures store.files == Written(old(store.files), Run(call, device, filesDir).output)
  {
    if call.uri.None? {
      return Rejected(UriRequired);
    }
    var fileName := FileName(call.fileName);
    var totalBytes := TotalBytes(device.probe);
    var outFile := ChildPath(ModelsDir(filesDir), fileName);
    match device.input
    case OpenThrows(message) =>
      return Rejected(ImportErrorPrefix + message);
    case ReturnsNull =>
      if device.outputFailure.Some? {
        return Rejected(ImportErrorPrefix + device.outputFailure.value);
      }
      store.Open(outFile);
      // input!! on the null stream throws an exception that carries no message.
      return Rejected(ImportErrorPrefix + NullMessage);
    case Opens(chunks, failure) =>
      var input := new InputStream(chunks, failure);
      if device.outputFailure.Some? {
        return Rejected(ImportErrorPrefix + device.outputFailure.value);
      }
      store.Open(outFile);
      var bytesCopied, thrown := CopyStream(input, store, outFile, totalBytes, channel);
      if thrown.Some? {
        return Rejected(ImportErrorPrefix + thrown.value);
      }
      // output.flush(); output.fd.sync(): a sync failure propagates, and a failing close is then suppressed.
      if device.syncFailure.Some? {
        return Rejected(ImportErrorPrefix + device.syncFailure.value);
      }
      // Leaving both `use` blocks closes the streams; a failing close propagates.
      if device.closeFailure.Some? {
        return Rejected(ImportErrorPrefix + device.closeFailure.value);
      }
      return Resolved(ImportResult(outFile, bytesCopied, fileName));
  }

  /**
   * Only a null `uri` is refused with "uri requerido": an empty one goes on to the copy, and a
   * refused call writes and notifies nothing.
   */
  lemma UriGuard(call: CallArgs, device: Device, filesDir: string)
    ensures Run(call, device, filesDir).settlement == Rejected(UriRequired) <==> call.uri.None?
    ensures call.uri.None? ==> Run(call, device, filesDir).output == None && Run(call, device, filesDir).events == []
  {
    var run := Run(call, device, filesDir);
    if run.settlement.Rejected? && call.uri.Some? {
      var m :| run.settlement.message == ImportErrorPrefix + m;
      PrefixedMessageDiffers(m, UriRequired);
    }
  }

  /**
   * Every failure other than a null `uri`, including a null stream and a failed fsync, rejects
   * with the "Error importando modelo: " prefix; a failed fsync leaves the copied bytes in place.
   */
  lemma FailuresCarryPrefix(call: CallArgs, device: Device, filesDir: string)
    ensures var s := Run(call, device, filesDir).settlement;
      s.Rejected? && call.uri.Some? ==> exists m :: s.message == ImportErrorPrefix + m
    ensures var run := Run(call, device, filesDir);
      call.uri.Some? && device.input.ReturnsNull? && device.outputFailure.None? ==>
        run.settlement == Rejected(ImportErrorPrefix + NullMessage)
    ensures var run := Run(call, device, filesDir);
      call.uri.Some? && device.input.Opens? && device.input.failure.None? && device.outputFailure.None?
      && device.syncFailure.Some? ==>
        && run.settlement == Rejected(ImportErrorPrefix + device.syncFailure.value)
        && run.output == Some(OutputFile(ChildPath(ModelsDir(filesDir), FileName(call.fileName)), Flatten(device.input.chunks)))
  {
    var s := Run(call, device, filesDir).settlement;
    if s.Rejected? && call.uri.Some? {
      match device.input
      case OpenThrows(message) =>
        assert s.message == ImportErrorPrefix + message;
      case ReturnsNull =>
        assert s.message == ImportErrorPrefix + (if device.outputFailure.Some? then device.outputFailure.value else NullMessage);
      case Opens(chunks, failure) =>
        var m := if device.outputFailure.Some? then device.outputFailure.value
                 else if failure.Some? then failure.value
                 else if device.syncFailure.Some? then device.syncFailure.value else device.closeFailure.value;
        assert s.message == ImportErrorPrefix + m;
    }
  }

  /**
   * The call resolves exactly when the uri is present, the stream opens and ends without an
   * exception, the destination opens, the fsync succeeds and both streams close cleanly; it then reports the destination path,
   * the number of bytes copied and the name used, and the destination holds the source's bytes.
   */
  lemma ResolvesWithCopy(call: CallArgs, device: Device, filesDir: string)
    ensures var run := Run(call, device, filesDir);
      run.settlement.Resolved? <==>
        && call.uri.Some? && device.input.Opens? && device.input.failure.None?
        && device.outputFailure.None? && device.syncFailure.None? && device.closeFailure.None?
    ensures var run := Run(call, device, filesDir);
      run.settlement.Resolved? ==>
        var path := ChildPath(ModelsDir(filesDir), FileName(call.fileName));
        && run.output == Some(OutputFile(path, Flatten(device.input.chunks)))
        && run.settlement.result == ImportResult(path, |run.output.value.content|, FileName(call.fileName))
  {
  }

  /**
   * How a real device answers an empty name: `File(modelsDir, "")` is the models directory itself,
   * and `FileOutputStream` cannot open a directory.
   */
  predicate DirectoryRefused(call: CallArgs, device: Device) {
    FileName(call.fileName) == [] ==> device.outputFailure.Some?
  }

  /**
   * An empty `fileName` is kept, so the destination is the models directory itself; on a device
   * that refuses to open it, the call is rejected with that exception and nothing is written or
   * notified, so such a call never resolves.
   */
  lemma EmptyNameRejected(call: CallArgs, device: Device, filesDir: string)
    requires call.uri.Some? && call.fileName == Some([])
    ensures ChildPath(ModelsDir(filesDir), FileName(call.fileName)) == ModelsDir(filesDir)
    ensures DirectoryRefused(call, device) && !device.input.OpenThrows? ==>
      Run(call, device, filesDir) == ImportRun(Rejected(ImportErrorPrefix + device.outputFailure.value), None, [])
    ensures DirectoryRefused(call, device) ==> !Run(call, device, filesDir).settlement.Resolved?
  {
  }

  /**
   * The two plugins agree on every call both accept with the same name: same bytes copied,
   * same events, and the same settlement unless the Kotlin fsync fails or the stream is null.
   */
  lemma AgreesWithJava(call: CallArgs, device: Device, filesDir: string)
    requires !Java.UriMissing(call.uri) && call.fileName.Some? && call.fileName.value != []
    ensures Run(call, device, filesDir).events == Java.Run(call, device, filesDir).events
    ensures Run(call, device, filesDir).output == Java.Run(call, device, filesDir).output
    ensures device.syncFailure.None? && !device.input.ReturnsNull? ==>
      Run(call, device, filesDir) == Java.Run(call, device, filesDir)
  {
  }

  /**
   * Progress events strictly increase, all at least 1, and none is sent when the size is unknown;
   * when the source is exactly as long as the reported size, every event is at most 100, there are
   * at most 100 of them and the last reports 100 percent: the Kotlin loop throttles as the Java one.
   */
  lemma ProgressEvents(call: CallArgs, device: Device, filesDir: string)
    requires WellFormed(device)
    ensures var events := Run(call, device, filesDir).events;
      && StrictlyIncreasing(events)
      && (forall k :: 0 <= k < |events| ==> events[k].progress >= 1)
      && (TotalBytes(device.probe) <= 0 ==> events == [])
    ensures var events := Run(call, device, filesDir).events;
      var total := TotalBytes(device.probe);
      call.uri.Some? && device.input.Opens? && device.outputFailure.None?
      && total > 0 && |Flatten(device.input.chunks)| == total ==>
        && (forall k :: 0 <= k < |events| ==> events[k].progress <= 100)
        && |events| <= 100
        && events != [] && Last(events) == Progress(100, total, total)
  {
    var total := TotalBytes(device.probe);
    if call.uri.Some? && device.input.Opens? && device.outputFailure.None? {
      var chunks := device.input.chunks;
      var events := Emitted(chunks, total, 0, 0);
      EmittedIncreasing(chunks, total, 0, 0);
      if total <= 0 {
        EmittedNoneWithoutTotal(chunks, total, 0, 0);
      }
      if total > 0 && |Flatten(chunks)| == total {
        EmittedAtMost100(chunks, total, 0, 0);
        IncreasingCount(events, 0, 100);
        assert chunks != [];
        EmittedEndsAt100(chunks, total, 0, 0);
      }
    }
  }
}
