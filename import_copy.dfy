/**
 * The streaming copy at the heart of `importFromUri` (shared, line for line, by the Java and the
 * Kotlin plugin): read the source in chunks of at most 64 KiB into one reused buffer, append each read
 * to the destination file, count the bytes copied, and notify `importProgress` listeners whenever the
 * whole percentage copied strictly exceeds the last one notified.
 */
module ImportCopy {
  import opened Common

  type byte = b: int | 0 <= b < 256

  /** Length of the reused read buffer: `64 * 1024`. */
  const BufferSize: nat := 64 * 1024

  /** Prefix of every rejection caused by an exception inside the import. */
  const ImportErrorPrefix: string := "Error importando modelo: "

  /** What `InputStream.read(buffer)` returns over a whole copy: each read yields 1 to 65536 bytes. */
  predicate ValidReads(chunks: seq<seq<byte>>) {
    forall i :: 0 <= i < |chunks| ==> 1 <= |chunks[i]| <= BufferSize
  }

  /** The bytes of a series of chunks, in order. */
  function Flatten(chunks: seq<seq<byte>>): seq<byte> {
    if chunks == [] then [] else chunks[0] + Flatten(chunks[1..])
  }

  /** Payload of one `importProgress` event. */
  datatype Progress = Progress(progress: int, bytesCopied: int, totalBytes: int)

  /**
   * Java's `(int)` narrowing of a `long`, and Kotlin's `Long.toInt()`: the low 32 bits read as a
   * two's-complement number.
   */
  function ToInt32(x: int): (r: int)
    ensures -0x8000_0000 <= r < 0x8000_0000
    ensures (x - r) % 0x1_0000_0000 == 0
    ensures -0x8000_0000 <= x < 0x8000_0000 ==> r == x
  {
    var m := x % 0x1_0000_0000;
    if m < 0x8000_0000 then m else m - 0x1_0000_0000
  }

  /**
   * `(int) ((bytesCopied * 100) / totalBytes)` on non-negative operands: Java's division truncates,
   * and the cast keeps the low 32 bits of the quotient. The `long` product is taken as exact.
   */
  function Percent(copied: int, total: int): int
    requires total > 0
  {
    ToInt32(copied * 100 / total)
  }

  /**
   * The events the copy loop notifies for the remaining `chunks`, when `copied` bytes are already
   * copied and `last` is `lastProgressUpdate`.
   */
  function Emitted(chunks: seq<seq<byte>>, total: int, copied: int, last: int): seq<Progress> {
    if chunks == [] then []
    else
      var c := copied + |chunks[0]|;
      if total > 0 && Percent(c, total) > last then
        [Progress(Percent(c, total), c, total)] + Emitted(chunks[1..], total, c, Percent(c, total))
      else
        Emitted(chunks[1..], total, c, last)
  }

  /** The progress values of a series of events strictly increase. */
  predicate StrictlyIncreasing(events: seq<Progress>) {
    forall i, j :: 0 <= i < j < |events| ==> events[i].progress < events[j].progress
  }

  /** Every event carries a progress above `last`, and the progress values strictly increase. */
  lemma {:induction false} EmittedIncreasing(chunks: seq<seq<byte>>, total: int, copied: int, last: int)
    ensures forall k :: 0 <= k < |Emitted(chunks, total, copied, last)| ==>
      Emitted(chunks, total, copied, last)[k].progress > last
    ensures StrictlyIncreasing(Emitted(chunks, total, copied, last))
    decreases |chunks|
  {
    if chunks != [] {
      var c := copied + |chunks[0]|;
      if total > 0 && Percent(c, total) > last {
        EmittedIncreasing(chunks[1..], total, c, Percent(c, total));
      } else {
        EmittedIncreasing(chunks[1..], total, c, last);
      }
    }
  }

  /** With an unknown or non-positive total, nothing is ever notified. */
  lemma {:induction false} EmittedNoneWithoutTotal(chunks: seq<seq<byte>>, total: int, copied: int, last: int)
    requires total <= 0
    ensures Emitted(chunks, total, copied, last) == []
    decreases |chunks|
  {
    if chunks != [] {
      EmittedNoneWithoutTotal(chunks[1..], total, copied + |chunks[0]|, last);
    }
  }

  /**
   * An event that reports the total, a byte count in `(lo, hi]`, and the percentage of that byte
   * count.
   */
  predicate ReportsWithin(e: Progress, total: int, lo: int, hi: int) {
    && total > 0 && e.totalBytes == total
    && lo < e.bytesCopied <= hi
    && e.progress == Percent(e.bytesCopied, total)
  }

  /**
   * Every event reports the total, a byte count reached after one of the reads (past `copied`, at
   * most everything), and the percentage of that byte count.
   */
  lemma {:induction false} EmittedReports(chunks: seq<seq<byte>>, total: int, copied: int, last: int)
    requires ValidReads(chunks)
    ensures forall e :: e in Emitted(chunks, total, copied, last) ==>
      ReportsWithin(e, total, copied, copied + |Flatten(chunks)|)
    decreases |chunks|
  {
    if chunks != [] {
      var c := copied + |chunks[0]|;
      assert ValidReads(chunks[1..]) by {
        forall i | 0 <= i < |chunks[1..]| ensures 1 <= |chunks[1..][i]| <= BufferSize {
          assert chunks[1..][i] == chunks[i + 1];
        }
      }
      assert |Flatten(chunks)| == |chunks[0]| + |Flatten(chunks[1..])|;
      if total > 0 && Percent(c, total) > last {
        EmittedReports(chunks[1..], total, c, Percent(c, total));
      } else {
        EmittedReports(chunks[1..], total, c, last);
      }
    }
  }

  /** The percentage of a byte count that does not exceed the total is at most 100, and below it when short of the total. */
  lemma PercentBounds(c: int, t: int)
    requires t > 0 && 0 <= c <= t
    ensures 0 <= Percent(c, t) <= 100
    ensures c < t ==> Percent(c, t) < 100
    ensures c == t ==> Percent(c, t) == 100
  {
    var q := c * 100 / t;
    var r := (c * 100) % t;
    assert c * 100 == q * t + r && 0 <= r < t;
    MulMonotone(q, 100, t);
    MulMonotone(0, q + 1, t);
    if c < t {
      MulMonotone(100, q, t);
    } else {
      assert (100 - q) * t == r;
      MulMonotone(1, 100 - q, t);
    }
    assert Percent(c, t) == q;
  }

  /** Multiplying by a positive number keeps the order. */
  lemma MulMonotone(x: int, y: int, t: int)
    requires t > 0
    ensures x <= y <==> x * t <= y * t
  {
    assert y * t - x * t == (y - x) * t;
  }

  /** Strictly increasing values in `(lo, hi]` number at most `hi - lo`. */
  lemma {:induction false} IncreasingCount(events: seq<Progress>, lo: int, hi: int)
    requires StrictlyIncreasing(events)
    requires forall k :: 0 <= k < |events| ==> lo < events[k].progress <= hi
    ensures |events| <= if hi > lo then hi - lo else 0
    decreases |events|
  {
    if events != [] {
      IncreasingCount(events[1..], events[0].progress, hi);
    }
  }

  /** When the chunks add up to no more than the total, no event goes beyond 100. */
  lemma {:induction false} EmittedAtMost100(chunks: seq<seq<byte>>, total: int, copied: int, last: int)
    requires ValidReads(chunks) && copied >= 0 && total > 0
    requires copied + |Flatten(chunks)| <= total
    ensures forall k :: 0 <= k < |Emitted(chunks, total, copied, last)| ==>
      Emitted(chunks, total, copied, last)[k].progress <= 100
  {
    var es := Emitted(chunks, total, copied, last);
    EmittedReports(chunks, total, copied, last);
    forall k | 0 <= k < |es| ensures es[k].progress <= 100 {
      assert es[k] in es;
      PercentBounds(es[k].bytesCopied, total);
    }
  }

  /**
   * When the chunks add up to exactly the total, the last event notified reports 100 percent and
   * every byte.
   */
  lemma {:induction false} EmittedEndsAt100(chunks: seq<seq<byte>>, total: int, copied: int, last: int)
    requires ValidReads(chunks) && chunks != [] && copied >= 0 && last < 100
    requires copied + |Flatten(chunks)| == total
    ensures Emitted(chunks, total, copied, last) != []
    ensures Last(Emitted(chunks, total, copied, last)) == Progress(100, total, total)
    decreases |chunks|
  {
    var c := copied + |chunks[0]|;
    PercentBounds(c, total);
    if |chunks| > 1 {
      var next := if Percent(c, total) > last then Percent(c, total) else last;
      EmittedEndsAt100(chunks[1..], total, c, next);
    }
  }

  /**
   * Nothing clamps the percentage: a first read of at least twice the reported total is notified
   * with its truncated percentage, which is 200 or more, as long as that percentage still fits in
   * an `int`.
   */
  lemma OverlongSourceExceeds100(chunk: seq<byte>, total: int)
    requires total > 0 && 2 * total <= |chunk|
    requires |chunk| * 100 / total < 0x8000_0000
    ensures Emitted([chunk], total, 0, 0) == [Progress(|chunk| * 100 / total, |chunk|, total)]
    ensures |chunk| * 100 / total >= 200
  {
    var q := |chunk| * 100 / total;
    var r := (|chunk| * 100) % total;
    assert |chunk| * 100 == q * total + r && 0 <= r < total;
    MulMonotone(2, |chunk|, total);
    MulMonotone(200, q + 1, total);
    assert Percent(|chunk|, total) == q;
    assert [chunk][1..] == [];
  }

  /**
   * The cast wraps: once the quotient passes the `int` range the percentage turns negative, that
   * read is not notified, and `lastProgressUpdate` stays where it was.
   */
  lemma WrappedPercentSilent(total: int, copied: int, last: int)
    requires total > 0 && last >= 0
    requires 0x8000_0000 <= copied * 100 / total < 0x1_0000_0000
    ensures Percent(copied, total) == copied * 100 / total - 0x1_0000_0000
    ensures Percent(copied, total) < 0
    ensures Notified(total, copied, last) == [] && NextLast(total, copied, last) == last
  {
  }

  /** With a reported size of one byte, the percentage wraps once more than 21474836 bytes are copied. */
  lemma OneByteTotalWraps()
    ensures Percent(21_474_836, 1) == 2_147_483_600
    ensures Percent(21_474_837, 1) == -2_147_483_596
    ensures Notified(1, 21_474_837, 100) == []
  {
  }

  /** The event one read notifies, if any: when `copied` bytes are in, the percentage goes past `last`. */
  function Notified(total: int, copied: int, last: int): seq<Progress> {
    if total > 0 && Percent(copied, total) > last then [Progress(Percent(copied, total), copied, total)] else []
  }

  /** `lastProgressUpdate` after that read. */
  function NextLast(total: int, copied: int, last: int): int {
    if total > 0 && Percent(copied, total) > last then Percent(copied, total) else last
  }

  /** One turn of the copy loop, as `Emitted` and `Flatten` see it. */
  lemma EmittedStep(chunks: seq<seq<byte>>, i: nat, total: int, copied: int, last: int)
    requires i < |chunks|
    ensures Flatten(chunks[i..]) == chunks[i] + Flatten(chunks[i + 1..])
    ensures var c := copied + |chunks[i]|;
      Emitted(chunks[i..], total, copied, last)
      == Notified(total, c, last) + Emitted(chunks[i + 1..], total, c, NextLast(total, c, last))
  {
    assert chunks[i..][1..] == chunks[i + 1..];
  }

  /**
   * One turn of the loop keeps its two invariants: what is written plus what is left to read is the
   * whole source, and what was notified plus what is left to notify is the whole event sequence.
   */
  lemma CopyTurn(chunks: seq<seq<byte>>, done: nat, written: seq<byte>, sent: seq<Progress>, all: seq<Progress>,
                 total: int, copied: int, last: int)
    requires done < |chunks|
    requires Flatten(chunks) == written + Flatten(chunks[done..])
    requires all == sent + Emitted(chunks[done..], total, copied, last)
    ensures var c := copied + |chunks[done]|;
      && Flatten(chunks) == (written + chunks[done]) + Flatten(chunks[done + 1..])
      && all == (sent + Notified(total, c, last)) + Emitted(chunks[done + 1..], total, c, NextLast(total, c, last))
  {
    EmittedStep(chunks, done, total, copied, last);
  }

  /** Rejection of a call without a `uri` argument. */
  const UriRequired: string := "uri requerido"

  /** Destination name used when the call carries none. */
  const DefaultFileName: string := "model.gguf"

  /** The arguments of a `importFromUri` plugin call; `None` is an absent (null) argument. */
  datatype CallArgs = CallArgs(uri: Option<string>, fileName: Option<string>)

  /** What `openAssetFileDescriptor(uri, "r")` gives: a descriptor and its length, null, or an exception. */
  datatype LengthProbe = Descriptor(length: int) | NoDescriptor | ProbeThrows

  /** `openInputStream(uri)`: a stream with its reads and the exception that ends it, if any; null; or an exception. */
  datatype InputOpen = Opens(chunks: seq<seq<byte>>, failure: Option<string>) | ReturnsNull | OpenThrows(message: string)

  /**
   * Everything the content resolver and the file system answer during one import: the length
   * probe, the input stream, the exception `new FileOutputStream` throws (if any), the exception
   * `getFD().sync()` throws (if any), and the exception closing the two streams throws (if any) once
   * the copy has finished without one.
   */
  datatype Device = Device(probe: LengthProbe, input: InputOpen, outputFailure: Option<string>, syncFailure: Option<string>,
                           closeFailure: Option<string>)

  /** The platform's promise about reads: each one returns between 1 and 65536 bytes. */
  predicate WellFormed(device: Device) {
    device.input.Opens? ==> ValidReads(device.input.chunks)
  }

  /** `totalBytes`: the descriptor's length, or 0 when there is no descriptor or probing throws. */
  function TotalBytes(probe: LengthProbe): (total: int)
    ensures probe.Descriptor? ==> total == probe.length
    ensures !probe.Descriptor? ==> total == 0
    ensures total != 0 ==> probe.Descriptor?
  {
    match probe
    case Descriptor(length) => length
    case NoDescriptor => 0
    case ProbeThrows => 0
  }

  /** `new File(parent, child).getAbsolutePath()` for an absolute parent: an empty child names the parent itself. */
  function ChildPath(parent: string, child: string): string {
    if child == [] then parent else parent + "/" + child
  }

  /** The private `models` directory under the application's files directory. */
  function ModelsDir(filesDir: string): string {
    ChildPath(filesDir, "models")
  }

  /** The record a successful import resolves with. */
  datatype ImportResult = ImportResult(destPath: string, fileSize: int, fileName: string)

  /** How a plugin call settles: `call.resolve(result)` or `call.reject(message)`. */
  datatype Settlement = Resolved(result: ImportResult) | Rejected(message: string)

  /** A destination file and the bytes it was left holding. */
  datatype OutputFile = OutputFile(path: string, content: seq<byte>)

  /** Everything one import does: how the call settles, the file it writes, the events it notifies. */
  datatype ImportRun = ImportRun(settlement: Settlement, output: Option<OutputFile>, events: seq<Progress>)

  /** The private files after an import that leaves `output` behind. */
  function Written(files: map<string, seq<byte>>, output: Option<OutputFile>): map<string, seq<byte>> {
    if output.None? then files else files[output.value.path := output.value.content]
  }

  /** A rejection message that starts with the import-error prefix is neither of the two fixed messages it could be confused with. */
  lemma PrefixedMessageDiffers(m: string, fixed: string)
    requires |fixed| < |ImportErrorPrefix|
    ensures ImportErrorPrefix + m != fixed
  {
  }

  /** The outcome of one `read(buffer)`: a byte count, end of stream (-1), or an IOException. */
  datatype ReadResult = Bytes(count: nat) | EndOfStream | Thrown(message: string)

  /**
   * The stream `openInputStream` returns: it yields `chunks` in order and then reports end of
   * stream, or throws `failure` when that is set.
   */
  class InputStream {
    const chunks: seq<seq<byte>>
    const failure: Option<string>
    var position: nat

    ghost predicate Valid()
      reads this
    {
      position <= |chunks| && ValidReads(chunks)
    }

    constructor (chunks: seq<seq<byte>>, failure: Option<string>)
      requires ValidReads(chunks)
      ensures Valid() && this.chunks == chunks && this.failure == failure && position == 0
    {
      this.chunks := chunks;
      this.failure := failure;
      position := 0;
    }

    /** `input.read(buffer)`: fills the front of `buffer` with the next read. */
    method Read(buffer: array<byte>) returns (r: ReadResult)
      requires Valid() && buffer.Length == BufferSize
      modifies this, buffer
      ensures Valid()
      ensures old(position) < |chunks| ==>
        && r == Bytes(|chunks[old(position)]|) && position == old(position) + 1
        && buffer[..r.count] == chunks[old(position)]
      ensures old(position) == |chunks| ==>
        && position == old(position) && unchanged(buffer)
        && r == (if failure.Some? then Thrown(failure.value) else EndOfStream)
    {
      if position == |chunks| {
        r := if failure.Some? then Thrown(failure.value) else EndOfStream;
        return;
      }
      var chunk := chunks[position];
      forall k | 0 <= k < |chunk| {
        buffer[k] := chunk[k];
      }
      r := Bytes(|chunk|);
      position := position + 1;
    }
  }

  /** The application's private files: each path holds the bytes written to it. */
  class FileStore {
    var files: map<string, seq<byte>>

    constructor (files: map<string, seq<byte>>)
      ensures this.files == files
    {
      this.files := files;
    }

    /** `new FileOutputStream(path)`: creates the file, or truncates it when it exists. */
    method Open(path: string)
      modifies this
      ensures files == old(files)[path := []]
    {
      files := files[path := []];
    }

    /** `output.write(buffer, 0, count)`: appends the first `count` bytes of the buffer. */
    method Write(path: string, buffer: array<byte>, count: nat)
      requires path in files && count <= buffer.Length
      modifies this
      ensures files == old(files)[path := old(files)[path] + buffer[..count]]
    {
      files := files[path := files[path] + buffer[..count]];
    }
  }

  /** The plugin's `importProgress` listeners, as the sequence of events they were notified of. */
  class EventChannel {
    var sent: seq<Progress>

    constructor ()
      ensures sent == []
    {
      sent := [];
    }

    /** `notifyListeners("importProgress", data)`. */
    method NotifyListeners(event: Progress)
      modifies this
      ensures sent == old(sent) + [event]
    {
      sent := sent + [event];
    }
  }

  /**
   * One turn of the loop after a read of `count` bytes: append them to the destination, add them
   * to the count, and notify an event when the whole percentage passes the last one notified.
   */
  method CopyChunk(store: FileStore, path: string, buffer: array<byte>, count: nat, bytesCopied: int,
                   lastProgressUpdate: int, totalBytes: int, channel: EventChannel)
    returns (copied: int, last: int)
    requires path in store.files && count <= buffer.Length
    modifies store, channel
    ensures store.files == old(store.files)[path := old(store.files)[path] + buffer[..count]]
    ensures copied == bytesCopied + count
    ensures last == NextLast(totalBytes, copied, lastProgressUpdate)
    ensures channel.sent == old(channel.sent) + Notified(totalBytes, copied, lastProgressUpdate)
  {
    store.Write(path, buffer, count);
    copied := bytesCopied + count;
    last := lastProgressUpdate;
    if totalBytes > 0 {
      var progress := Percent(copied, totalBytes);
      if progress > last {
        last := progress;
        channel.NotifyListeners(Progress(progress, copied, totalBytes));
      }
    }
  }

  /**
   * The `while ((bytesRead = input.read(buffer)) != -1)` loop: afterwards the destination holds
   * every byte read, in order, `bytesCopied` counts them, the listeners were notified of exactly the
   * throttled events, and `failure` is the exception that ended the loop, if any.
   */
  method CopyStream(input: InputStream, store: FileStore, path: string, totalBytes: int, channel: EventChannel)
    returns (bytesCopied: int, failure: Option<string>)
    requires input.Valid() && input.position == 0
    requires path in store.files && store.files[path] == []
    modifies input, store, channel
    ensures input.Valid()
    ensures store.files == old(store.files)[path := Flatten(input.chunks)]
    ensures bytesCopied == |Flatten(input.chunks)|
    ensures channel.sent == old(channel.sent) + Emitted(input.chunks, totalBytes, 0, 0)
    ensures failure == input.failure
  {
    var buffer := new byte[BufferSize];
    bytesCopied := 0;
    var lastProgressUpdate := 0;
    ghost var chunks := input.chunks;
    while true
      invariant input.Valid() && buffer.Length == BufferSize
      invariant path in store.files && store.files == old(store.files)[path := store.files[path]]
      invariant Flatten(chunks) == store.files[path] + Flatten(chunks[input.position..])
      invariant bytesCopied == |store.files[path]|
      invariant old(channel.sent) + Emitted(chunks, totalBytes, 0, 0)
        == channel.sent + Emitted(chunks[input.position..], totalBytes, bytesCopied, lastProgressUpdate)
      decreases |chunks| - input.position
    {
      ghost var done := input.position;
      ghost var written := store.files[path];
      ghost var sent := channel.sent;
      var r := input.Read(buffer);
      if !r.Bytes? {
        failure := if r.Thrown? then Some(r.message) else None;
        assert chunks[done..] == [];
        assert written + Flatten(chunks[done..]) == written;
        break;
      }
      CopyTurn(chunks, done, written, sent, old(channel.sent) + Emitted(chunks, totalBytes, 0, 0),
               totalBytes, bytesCopied, lastProgressUpdate);
      bytesCopied, lastProgressUpdate := CopyChunk(store, path, buffer, r.count, bytesCopied, lastProgressUpdate, totalBytes, channel);
    }
  }
}
