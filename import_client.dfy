/**
 * `importarModeloPorStreaming` (src/lib/importModel.ts): the web side of the streaming import. It
 * asks the file picker for a file without reading it, turns the pick into the `(uri, fileName)`
 * arguments of the native `importFromUri`, and releases its progress-listener handle on the way out.
 */
module ImportClient {
  import opened Common
  import opened JsString
  import opened ImportCopy
  import FileUtils
  import Java = ModelImporterJava
  import Kotlin = ModelImporterKotlin

  const NoFileSelected: string := "No se seleccionó archivo"
  const NoUri: string := "No se pudo obtener URI del archivo"

  /** One picked file; absent fields are `null` or `undefined`. */
  datatype PickerFile = PickerFile(path: Option<string>, uri: Option<string>, name: Option<string>)

  /** The picker's answer: the list of files (possibly absent), or the error it threw. */
  datatype PickerReply = Picked(files: Option<seq<PickerFile>>) | PickerThrew(message: string)

  /**
   * The arguments built from a pick, or the message of the error thrown: no file throws, the uri
   * is `path ?? uri`, the name is `name ?? "model.gguf"`, and a uri that is absent or empty throws.
   */
  function ResolvePick(reply: PickerReply): Result<CallArgs, string> {
    match reply
    case PickerThrew(message) => Err(message)
    case Picked(files) =>
      if files.None? || |files.value| == 0 then Err(NoFileSelected)
      else
        var f := files.value[0];
        var uri := if f.path.Some? then f.path else f.uri;
        var fileName := f.name.GetOr(DefaultFileName);
        if uri.None? || uri.value == [] then Err(NoUri)
        else Ok(CallArgs(uri, Some(fileName)))
  }

  /**
   * A pick fails with "No se seleccionó archivo" exactly when the picker answered with no file; it
   * succeeds exactly when the first file's `path`, or its `uri` when `path` is absent, is a
   * non-empty string, and then passes that uri and the file's own name, or "model.gguf" only when
   * the name is absent.
   */
  lemma ResolvePickSpec(reply: PickerReply)
    ensures reply.Picked? ==> (ResolvePick(reply) == Err(NoFileSelected) <==> reply.files.None? || |reply.files.value| == 0)
    ensures reply.PickerThrew? ==> ResolvePick(reply) == Err(reply.message)
    ensures reply.Picked? && reply.files.Some? && |reply.files.value| > 0 ==>
      var f := reply.files.value[0];
      var uri := if f.path.Some? then f.path else f.uri;
      && (ResolvePick(reply).Ok? <==> uri.Some? && uri.value != [])
      && (ResolvePick(reply).Ok? ==> ResolvePick(reply).value == CallArgs(uri, Some(f.name.GetOr(DefaultFileName))))
      && (ResolvePick(reply).Err? ==> ResolvePick(reply).error == NoUri)
  {
    assert NoUri != NoFileSelected by {
      assert NoUri[6] != NoFileSelected[6];
    }
  }

  /**
   * An empty `path` is not skipped by `??`: whatever `uri` and name the first file has, and
   * whatever files follow it, the pick fails.
   */
  lemma EmptyPathHidesUri(uri: Option<string>, name: Option<string>, rest: seq<PickerFile>)
    ensures ResolvePick(Picked(Some([PickerFile(Some(""), uri, name)] + rest))) == Err(NoUri)
  {
  }

  /**
   * The client checks no extension: any name picked with a non-empty path is handed to the
   * importer as it is, including an empty one and one the ".gguf" validator refuses, such as
   * "notes.txt".
   */
  lemma NoExtensionCheck(path: string, uri: Option<string>, name: string, rest: seq<PickerFile>)
    requires path != []
    ensures ResolvePick(Picked(Some([PickerFile(Some(path), uri, Some(name))] + rest))) == Ok(CallArgs(Some(path), Some(name)))
    ensures !FileUtils.IsValidGGUFFile("notes.txt")
  {
    var lower := ToLower("notes.txt");
    assert lower[8] == 't';
  }

  /**
   * The arguments the client builds always get past the uri guard of both native importers, and
   * the Java importer then stores the file under the picked name unless that name is empty.
   */
  lemma ClientPassesImporterGuards(reply: PickerReply, device: Device, filesDir: string)
    requires ResolvePick(reply).Ok?
    ensures var call := ResolvePick(reply).value;
      && !Java.UriMissing(call.uri)
      && Java.Run(call, device, filesDir).settlement != Rejected(UriRequired)
      && Kotlin.Run(call, device, filesDir).settlement != Rejected(UriRequired)
      && (call.fileName.value != [] ==> Java.FileName(call.fileName) == call.fileName.value)
      && Kotlin.FileName(call.fileName) == call.fileName.value
  {
    var call := ResolvePick(reply).value;
    Java.UriGuard(call, device, filesDir);
    Kotlin.UriGuard(call, device, filesDir);
  }

  /** A handle to a registered `importProgress` listener. */
  datatype ListenerHandle = ListenerHandle(id: nat)

  /**
   * `importarModeloPorStreaming`. The importer's settlement is a parameter. The listener
   * registration is commented out in the source, so the handle stays undefined, `onProgress` is
   * never called and the `finally` block releases nothing; the returned counts record that.
   */
  method ImportarModeloPorStreaming(reply: PickerReply, importerReply: Settlement)
    returns (outcome: Settlement, calls: seq<CallArgs>, removals: nat, progressCalls: nat)
    ensures ResolvePick(reply).Err? ==> outcome == Rejected(ResolvePick(reply).error) && calls == []
    ensures ResolvePick(reply).Ok? ==> calls == [ResolvePick(reply).value] && outcome == importerReply
    ensures removals == 0 && progressCalls == 0
  {
    var progressListener: Option<ListenerHandle> := None;
    // `progressCalls` records an absence: no listener is registered, so nothing ever calls `onProgress`.
    progressCalls := 0;
    calls := [];
    removals := 0;
    // try
    var resolved := ResolvePick(reply);
    match resolved {
      case Err(message) =>
        outcome := Rejected(message);
      case Ok(call) =>
        calls := calls + [call];
        outcome := importerReply;
    }
    // finally: the handle is released only when one was registered
    removals := removals + if progressListener.Some? then 1 else 0;
  }
}
