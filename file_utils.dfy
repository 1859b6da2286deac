/**
 * The model-file helpers of src/utils/fileUtils.ts: the ".gguf" check, the names and paths derived
 * from a file name or a path, the listing of the models directory, and the decisions of the file
 * picker. The Capacitor file system is reduced to its answers, passed in as parameters; a URI it
 * hands out for a path under the Documents directory is that directory's URI, '/', and the path.
 */
module FileUtils {
  import opened Common
  import opened JsString

  datatype FileInfo = FileInfo(name: string, path: string, size: int, mimeType: Option<string>)

  const ModelsDir: string := "Models"
  const GgufExtension: string := ".gguf"
  const OctetStream: string := "application/octet-stream"
  const UnknownName: string := "unknown"
  const DefaultPickedName: string := "model.gguf"
  const InvalidFileType: string := "Invalid file type. Please select a .gguf file."
  const NoFileData: string := "No file data available"
  const MissingDirectory: string := "does not exist"

  /** `Models/${fileName}`: where a model file is stored under Documents. */
  function ModelsPath(fileName: string): string {
    ModelsDir + "/" + fileName
  }

  /** The URI of a path under the Documents directory. */
  function DocumentUri(documentsUri: string, path: string): string {
    documentsUri + "/" + path
  }

  /** `isValidGGUFFile`: the name ends with ".gguf" in any letter case. */
  function IsValidGGUFFile(fileName: string): bool {
    EndsWith(ToLower(fileName), GgufExtension)
  }

  /**
   * A name ending in ".gguf" as written is valid, and so is one whose extension is in capitals:
   * the validator accepts more than the case-sensitive test of the listing.
   */
  lemma ValidatorWiderThanListing(fileName: string)
    ensures EndsWith(fileName, GgufExtension) ==> IsValidGGUFFile(fileName)
    ensures IsValidGGUFFile("MODEL.GGUF") && !EndsWith("MODEL.GGUF", GgufExtension)
  {
    // ".gguf" is already lower case, so the validator tests for the extension itself.
    assert ToLower(GgufExtension) == ToLower(".gguf") == GgufExtension;
    var lower := ToLower(fileName);
    if EndsWith(fileName, GgufExtension) {
      assert lower[|lower| - 5..] == ToLower(fileName[|fileName| - 5..]);
    }
    var caps := "MODEL.GGUF";
    assert caps[5..] == ".GGUF";
    assert ToLower(caps)[5..] == ToLower(".GGUF");
    assert ToLower(".GGUF") == GgufExtension;
    assert caps[5] == '.' && caps[6] == 'G';
  }

  /** The stat answer for a path: its size and whether it is a regular file. */
  datatype Stat = Stat(size: int, isFile: bool)

  /** `getFileInfo`: the name is the last path segment, or "unknown"; a failed stat is rethrown. */
  function GetFileInfo(filePath: string, stat: Result<Stat, string>): (r: Result<FileInfo, string>)
    ensures stat.Err? ==> r == Err(stat.error)
    ensures stat.Ok? ==> r.Ok? && r.value.path == filePath && r.value.size == stat.value.size
    ensures stat.Ok? ==> r.Ok? && r.value.mimeType == if stat.value.isFile then Some(OctetStream) else None
  {
    match stat
    case Err(e) => Err(e)
    case Ok(st) =>
      Ok(FileInfo(LastSegmentOr(filePath, UnknownName), filePath, st.size,
                  if st.isFile then Some(OctetStream) else None))
  }

  /**
   * The name `getFileInfo` reports is "unknown" for a path ending in '/', and otherwise the
   * non-empty text after the last '/', which ends the path and holds no '/'.
   */
  lemma FileInfoName(filePath: string, stat: Stat)
    ensures var name := GetFileInfo(filePath, Ok(stat)).value.name;
      && (filePath == [] || filePath[|filePath| - 1] == '/' ==> name == UnknownName)
      && (filePath != [] && filePath[|filePath| - 1] != '/' ==> name != [] && '/' !in name && EndsWith(filePath, name))
  {
    LastSegmentOrSpec(filePath, UnknownName);
  }

  /** `deleteStoredModel`: the file deleted is the last segment of the path, under Models. */
  function DeleteTarget(modelPath: string): (r: string)
    ensures StartsWith(r, ModelsDir + "/")
  {
    ModelsPath(LastSegment(modelPath, '/'))
  }

  /**
   * Deleting by the URI a stored model was given targets that same model, and a path ending in '/'
   * targets the Models directory path itself.
   */
  lemma DeleteTargetRoundTrip(documentsUri: string, fileName: string, path: string)
    requires '/' !in fileName
    ensures DeleteTarget(DocumentUri(documentsUri, ModelsPath(fileName))) == ModelsPath(fileName)
    ensures DeleteTarget(fileName) == ModelsPath(fileName)
    ensures path != [] && path[|path| - 1] == '/' ==> DeleteTarget(path) == ModelsDir + "/"
  {
    var uri := DocumentUri(documentsUri, ModelsPath(fileName));
    assert uri == (documentsUri + "/" + ModelsDir) + ['/'] + fileName;
    LastSegmentAfter(documentsUri + "/" + ModelsDir, '/', fileName);
    LastSegmentWhole(fileName, '/');
    if path != [] && path[|path| - 1] == '/' {
      LastSegmentOrSpec(path, "x");
      SplitLast(path, '/');
      assert LastSegment(path, '/') == [];
    }
  }

  /** A directory entry, with its size when both `stat` and `getUri` answered for it. */
  datatype DirEntry = DirEntry(name: string, size: Option<int>)

  /** The answer of `readdir` on the Models directory; a failure carries its message, if any. */
  datatype Listing = Listed(entries: seq<DirEntry>) | ReadFailed(message: Option<string>)

  /** The info pushed for a listed model file. */
  function ListedInfo(documentsUri: string, name: string, size: int): FileInfo {
    FileInfo(name, DocumentUri(documentsUri, ModelsPath(name)), size, Some(OctetStream))
  }

  /** The files the listing keeps: ".gguf" names (case-sensitive) whose stat answered, in order. */
  function Kept(entries: seq<DirEntry>, documentsUri: string): seq<FileInfo>
    decreases |entries|
  {
    if entries == [] then []
    else
      var e := Last(entries);
      Kept(entries[..|entries| - 1], documentsUri)
      + (if EndsWith(e.name, GgufExtension) && e.size.Some? then [ListedInfo(documentsUri, e.name, e.size.value)] else [])
  }

  /**
   * Every kept file has a ".gguf" name, which the validator accepts too, and comes from an entry
   * whose stat answered; every such entry is kept; the listing never grows.
   */
  lemma {:induction false} KeptSpec(entries: seq<DirEntry>, documentsUri: string)
    ensures |Kept(entries, documentsUri)| <= |entries|
    ensures forall f :: f in Kept(entries, documentsUri) ==>
      EndsWith(f.name, GgufExtension) && IsValidGGUFFile(f.name)
      && DirEntry(f.name, Some(f.size)) in entries
      && f == ListedInfo(documentsUri, f.name, f.size)
    ensures forall e :: e in entries && EndsWith(e.name, GgufExtension) && e.size.Some? ==>
      ListedInfo(documentsUri, e.name, e.size.value) in Kept(entries, documentsUri)
    decreases |entries|
  {
    if entries != [] {
      var init := entries[..|entries| - 1];
      KeptSpec(init, documentsUri);
      assert entries == init + [Last(entries)];
      forall f | f in Kept(entries, documentsUri)
        ensures IsValidGGUFFile(f.name)
      {
        ValidatorWiderThanListing(f.name);
      }
    }
  }

  /** The names kept are the matching names of the directory, in directory order. */
  lemma {:induction false} KeptOrder(a: seq<DirEntry>, b: seq<DirEntry>, documentsUri: string)
    ensures Kept(a + b, documentsUri) == Kept(a, documentsUri) + Kept(b, documentsUri)
    decreases |b|
  {
    if b == [] {
      assert a + b == a;
    } else {
      assert (a + b)[..|a + b| - 1] == a + b[..|b| - 1];
      assert Last(a + b) == Last(b);
      KeptOrder(a, b[..|b| - 1], documentsUri);
    }
  }

  /**
   * `listModelFiles`: the kept files of the directory. A missing directory lists as empty; any
   * other failure of `readdir` is rethrown with its message.
   */
  method ListModelFiles(listing: Listing, documentsUri: string) returns (r: Result<seq<FileInfo>, Option<string>>)
    ensures listing.Listed? ==> r == Ok(Kept(listing.entries, documentsUri))
    ensures listing.ReadFailed? ==>
      r == if listing.message.Some? && Contains(listing.message.value, MissingDirectory) then Ok([])
           else Err(listing.message)
  {
    match listing {
      case ReadFailed(message) =>
        if message.Some? && Contains(message.value, MissingDirectory) {
          return Ok([]);
        }
        return Err(message);
      case Listed(entries) =>
        var files: seq<FileInfo> := [];
        var i := 0;
        while i < |entries|
          invariant 0 <= i <= |entries|
          invariant files == Kept(entries[..i], documentsUri)
        {
          var file := entries[i];
          if EndsWith(file.name, GgufExtension) {
            match file.size {
              case Some(size) =>
                files := files + [ListedInfo(documentsUri, file.name, size)];
              case None =>
                // The stat failure is logged and the entry skipped.
            }
          }
          assert entries[..i + 1][..i] == entries[..i];
          i := i + 1;
        }
        assert entries[..i] == entries;
        return Ok(files);
    }
  }

  /** What the FileReader gives for a picked blob: a data URL, or a read error. */
  datatype BlobRead = DataUrl(url: string) | ReadError(message: string)

  /**
   * A file returned by the native picker; an empty name or empty data counts as absent, as
   * JavaScript's `||` and `if` treat them.
   */
  datatype PickedFile = PickedFile(name: Option<string>, size: Option<int>, data: Option<string>, blob: Option<BlobRead>)

  /** The write `pickAndStoreGguf` makes: where, and which base64 payload (absent when undefined). */
  datatype Write = Write(path: string, data: Option<string>)

  /** The outcome of a native pick: the value returned or the error thrown, and the write made. */
  datatype PickRun = PickRun(result: Result<Option<FileInfo>, string>, write: Option<Write>)

  /** `file.name || 'model.gguf'`. */
  function PickedName(file: PickedFile): (name: string)
    ensures name != []
    ensures file.name.Some? && file.name.value != [] ==> name == file.name.value
    ensures file.name.None? || file.name.value == [] ==> name == DefaultPickedName
  {
    if file.name.Some? && file.name.value != [] then file.name.value else DefaultPickedName
  }

  /** The payload of a data URL: the text after its first comma, undefined when there is none. */
  function DataUrlPayload(url: string): Option<string> {
    var parts := Split(url, ',');
    if |parts| >= 2 then Some(parts[1]) else None
  }

  /**
   * `pickAndStoreGguf` on a native platform. Nothing picked gives null. A name that is not a
   * ".gguf" name throws before anything is written. The Models directory is created (its failure
   * is rethrown), the data or else the blob is written to `Models/<name>`, and the stored file is
   * described with a missing size counted as 0.
   */
  function PickAndStoreNative(files: Option<seq<PickedFile>>, mkdirFailure: Option<string>,
                              writeFailure: Option<string>, documentsUri: string): PickRun
  {
    if files.None? || |files.value| == 0 then PickRun(Ok(None), None)
    else
      var file := files.value[0];
      var fileName := PickedName(file);
      if !IsValidGGUFFile(fileName) then PickRun(Err(InvalidFileType), None)
      else if mkdirFailure.Some? then PickRun(Err(mkdirFailure.value), None)
      else
        var destinationPath := ModelsPath(fileName);
        var fileData: Result<Option<string>, string> :=
          if file.data.Some? && file.data.value != [] then Ok(file.data)
          else if file.blob.Some? then
            match file.blob.value
            case DataUrl(url) => Ok(DataUrlPayload(url))
            case ReadError(message) => Err(message)
          else Err(NoFileData);
        match fileData
        case Err(message) => PickRun(Err(message), None)
        case Ok(payload) =>
          var write := Some(Write(destinationPath, payload));
          if writeFailure.Some? then PickRun(Err(writeFailure.value), write)
          else PickRun(Ok(Some(FileInfo(fileName, DocumentUri(documentsUri, destinationPath), file.size.GetOr(0), Some(OctetStream)))), write)
  }

  /**
   * The decisions of a native pick: null exactly when nothing was picked; a name the validator
   * refuses throws before any write; every write goes to `Models/<name>`; a stored file is reported
   * under its name, at its URI, with a missing size as 0.
   */
  lemma PickDecisions(files: Option<seq<PickedFile>>, mkdirFailure: Option<string>,
                      writeFailure: Option<string>, documentsUri: string)
    ensures var run := PickAndStoreNative(files, mkdirFailure, writeFailure, documentsUri);
      && (run.result == Ok(None) <==> files.None? || |files.value| == 0)
      && (files.Some? && |files.value| > 0 && !IsValidGGUFFile(PickedName(files.value[0])) ==>
            run == PickRun(Err(InvalidFileType), None))
      && (run.write.Some? ==>
            && files.Some? && |files.value| > 0
            && IsValidGGUFFile(PickedName(files.value[0]))
            && run.write.value.path == ModelsPath(PickedName(files.value[0])))
      && (run.result.Ok? && run.result.value.Some? ==>
            var file := files.value[0];
            run.write.Some? && writeFailure.None?
            && run.result.value.value
              == FileInfo(PickedName(file), DocumentUri(documentsUri, ModelsPath(PickedName(file))), file.size.GetOr(0), Some(OctetStream)))
  {
  }

  /** The data of a stored file is the picked data when there is some, and needs no blob then. */
  lemma PickPrefersData(file: PickedFile, documentsUri: string)
    requires IsValidGGUFFile(PickedName(file)) && file.data.Some? && file.data.value != []
    ensures PickAndStoreNative(Some([file]), None, None, documentsUri).write
      == Some(Write(ModelsPath(PickedName(file)), file.data))
  {
  }

  /** A file chosen in the browser's file input. */
  datatype WebFile = WebFile(name: string, size: int, mimeType: string)

  /** `pickAndStoreGguf` in a browser: a ".gguf" file is described, anything else gives null. */
  function PickWeb(file: Option<WebFile>): (r: Option<FileInfo>)
    ensures r.Some? <==> file.Some? && IsValidGGUFFile(file.value.name)
    ensures r.Some? ==> r.value.name == file.value.name && r.value.size == file.value.size
    ensures r.Some? ==> r.value.path == "Documents/" + ModelsPath(file.value.name)
    ensures r.Some? ==> r.value.mimeType == Some(if file.value.mimeType != [] then file.value.mimeType else OctetStream)
  {
    match file
    case None => None
    case Some(f) =>
      if IsValidGGUFFile(f.name) then
        Some(FileInfo(f.name, "Documents/Models/" + f.name, f.size,
                      Some(if f.mimeType != [] then f.mimeType else OctetStream)))
      else None
  }

  /** `copyToModelsDirectory`: the file read from the source goes to `Models/<name>`, and its URI is returned. */
  function CopyToModelsDirectory(read: Result<string, string>, writeFailure: Option<string>,
                                 fileName: string, documentsUri: string): (r: (Result<string, string>, Option<Write>))
    ensures read.Err? ==> r == (Err(read.error), None)
    ensures read.Ok? ==> r.1 == Some(Write(ModelsPath(fileName), Some(read.value)))
    ensures read.Ok? && writeFailure.None? ==> r.0 == Ok(DocumentUri(documentsUri, ModelsPath(fileName)))
    ensures read.Ok? && writeFailure.Some? ==> r.0 == Err(writeFailure.value)
  {
    match read
    case Err(e) => (Err(e), None)
    case Ok(data) =>
      var destinationPath := ModelsPath(fileName);
      var write := Some(Write(destinationPath, Some(data)));
      if writeFailure.Some? then (Err(writeFailure.value), write)
      else (Ok(DocumentUri(documentsUri, destinationPath)), write)
  }
}
