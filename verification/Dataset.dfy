/**
 A dataset on disk and the manifest that records how far each chunk has come.

 A digest stands for SHA-256 as an ideal hash: it holds the content it was taken of, so two
 digests are equal exactly when the contents are.
 */
module Dataset {
  import opened Text
  import opened Ticks
  import opened Chunks

  const NORMALIZED_HEADER := "timestamp_ms,bid,ask,bid_volume,ask_volume"
  const NORMALIZER_VERSION := "1"

  /** A raw file: its bytes, and the rows its provider reads from them. */
  datatype RawFile = RawFile(bytes: string, rows: seq<Row>)

  /** One line of a normalized file. */
  datatype Line = TickLine(tick: Tick) | Unreadable(text: string)

  datatype NormalizedFile = NormalizedFile(header: string, lines: seq<Line>)

  datatype RawDigest = RawSha256(content: RawFile)

  datatype Digest = Sha256(content: NormalizedFile)

  datatype Status = Pending | Complete | Empty | Failed

  datatype Download = Download(status: Status, sha256: Option<RawDigest>, bytes: nat)

  datatype NormalizeRecord = NormalizeRecord(
    status: Status,
    rawSha256: Option<RawDigest>,
    version: string,
    sha256: Option<Digest>,
    ticksIn: nat,
    rejected: nat
  )

  datatype Entry = Entry(download: Download, normalize: NormalizeRecord)

  /** Per chunk id, the normalized checksum and status that the dataset fingerprint hashes. */
  type Fingerprint = map<string, (Option<Digest>, Status)>

  datatype Verdict = Pass | Warn | Fail

  datatype Validation = Validation(verdict: Verdict, tickCount: nat, fingerprint: Fingerprint)

  predicate Acquired(status: Status) {
    status == Complete || status == Empty
  }

  const PENDING_DOWNLOAD := Download(Pending, None, 0)
  const PENDING_NORMALIZE := NormalizeRecord(Pending, None, "", None, 0, 0)

  function FingerprintOf(entries: map<string, Entry>): Fingerprint {
    map id | id in entries :: (entries[id].normalize.sha256, entries[id].normalize.status)
  }

  function WindowOf(chunk: Chunk): Window {
    Window(chunk.startMs, chunk.endMs)
  }

  function AsLines(ticks: seq<Tick>): (lines: seq<Line>)
    ensures |lines| == |ticks|
  {
    seq(|ticks|, i requires 0 <= i < |ticks| => TickLine(ticks[i]))
  }

  /** The ticks of the readable lines, in order. */
  function TicksOf(lines: seq<Line>): seq<Tick> {
    if lines == [] then []
    else
      var init := TicksOf(lines[..|lines| - 1]);
      match lines[|lines| - 1]
      case TickLine(tick) => init + [tick]
      case Unreadable(_) => init
  }

  ghost predicate AllReadable(lines: seq<Line>) {
    forall i :: 0 <= i < |lines| ==> lines[i].TickLine?
  }

  lemma {:induction false} TicksOfReadable(lines: seq<Line>)
    requires AllReadable(lines)
    ensures |TicksOf(lines)| == |lines|
    ensures forall i :: 0 <= i < |lines| ==> TicksOf(lines)[i] == lines[i].tick
  {
    if lines != [] {
      TicksOfReadable(lines[..|lines| - 1]);
    }
  }

  /** The ticks of one chunk, if its normalization is recorded as complete. */
  function ChunkTicks(entries: map<string, Entry>, files: map<string, NormalizedFile>, chunk: Chunk): seq<Tick> {
    var id := chunk.chunkId;
    if id in entries && entries[id].normalize.status == Complete && id in files then TicksOf(files[id].lines) else []
  }

  /** The ticks of all chunks, in plan order. */
  function AllTicks(entries: map<string, Entry>, files: map<string, NormalizedFile>, chunks: seq<Chunk>): seq<Tick> {
    if chunks == [] then []
    else AllTicks(entries, files, chunks[..|chunks| - 1]) + ChunkTicks(entries, files, chunks[|chunks| - 1])
  }
}
