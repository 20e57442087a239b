/**
 * Demo::TestTrigger::TestAVIOReading and its read callback: a media file is
 * mapped into memory, and FFmpeg's AVIO layer reads it back through
 * `read_packet`, a cursor over the mapped bytes; every failing step jumps to
 * one shared release block.
 */
module Demo {
  import opened FFmpegOracle

  /** FFMIN(buf_size, bd->size): how many bytes read_packet hands out. */
  function Granted(bufSize: nat, size: nat): (n: nat)
    ensures n <= bufSize && n <= size
    ensures n == bufSize || n == size
  {
    if bufSize < size then bufSize else size
  }

  /** The sum of a sequence of requested sizes. */
  function Total(requests: seq<nat>): nat {
    if requests == [] then 0 else requests[0] + Total(requests[1..])
  }

  /**
   * The bytes that successive read_packet calls with sizes `requests` hand
   * out, in order, starting with `remaining` left at the cursor.
   */
  function Served(remaining: seq<bv8>, requests: seq<nat>): (r: seq<bv8>)
    ensures |r| <= |remaining| && |r| <= Total(requests)
  {
    if requests == [] then []
    else
      var n := Granted(requests[0], |remaining|);
      remaining[..n] + Served(remaining[n..], requests[1..])
  }

  /**
   * Concatenating what successive calls return yields a prefix of the
   * buffer: as much as was asked for, but never more than the buffer holds.
   */
  lemma {:induction false} ServedIsPrefix(remaining: seq<bv8>, requests: seq<nat>)
    ensures var out := Served(remaining, requests);
      && |out| == (if Total(requests) < |remaining| then Total(requests) else |remaining|)
      && out == remaining[..|out|]
  {
    if requests != [] {
      var n := Granted(requests[0], |remaining|);
      ServedIsPrefix(remaining[n..], requests[1..]);
      var rest := Served(remaining[n..], requests[1..]);
      assert remaining[n..][..|rest|] == remaining[n..n + |rest|];
      assert remaining[..n] + remaining[n..n + |rest|] == remaining[..n + |rest|];
    }
  }

  /**
   * Once the calls `a` have asked for at least what was left, they have
   * handed out the whole buffer, and any later calls `b` hand out nothing.
   */
  lemma {:induction false} ServedStopsAtEnd(remaining: seq<bv8>, a: seq<nat>, b: seq<nat>)
    requires |remaining| <= Total(a)
    ensures Served(remaining, a) == remaining
    ensures Served(remaining, a + b) == remaining
    decreases |a|
  {
    if a == [] {
      assert a + b == b;
      ServedIsPrefix([], b);
    } else {
      var n := Granted(a[0], |remaining|);
      var rest := remaining[n..];
      assert |rest| <= Total(a[1..]);
      var ab := a + b;
      assert ab != [] && ab[0] == a[0] && ab[1..] == a[1..] + b;
      ServedStopsAtEnd(rest, a[1..], b);
      assert Served(remaining, a) == remaining[..n] + Served(rest, a[1..]);
      assert Served(remaining, ab) == remaining[..n] + Served(rest, ab[1..]);
      assert remaining[..n] + rest == remaining;
    }
  }

  /**
   * struct buffer_data: the opaque state of the read callback, a cursor into
   * the mapped file (`ptr` as an offset into `data`) and the bytes left.
   */
  class BufferData {
    /** The mapped file. */
    const data: array<bv8>
    /** bd->ptr, as an offset into `data`. */
    var ptr: nat
    /** bd->size: the bytes left in the buffer. */
    var size: nat
    /** Every byte handed out so far, in order. */
    ghost var delivered: seq<bv8>

    /**
     * The cursor and the bytes left always add up to the whole buffer, and
     * what was handed out is exactly the part before the cursor.
     */
    ghost predicate Valid()
      reads this`ptr, this`size, this`delivered, data
    {
      ptr + size == data.Length && delivered == data[..ptr]
    }

    /** bd.ptr = buffer; bd.size = buffer_size: the cursor at the start of the mapped file. */
    constructor (data: array<bv8>)
      ensures Valid()
      ensures this.data == data && ptr == 0 && size == data.Length && delivered == []
    {
      this.data := data;
      ptr := 0;
      size := data.Length;
      delivered := [];
    }

    /**
     * read_packet: copies the next min(buf_size, size) bytes at the cursor
     * into `buf` and advances the cursor past them, returning how many; when
     * that is none it returns AVERROR_EOF and leaves everything as it was.
     */
    method ReadPacket(buf: array<bv8>, bufSize: int) returns (ret: int)
      requires Valid()
      requires buf != data && 0 <= bufSize <= buf.Length
      modifies this`ptr, this`size, this`delivered, buf
      ensures Valid()
      ensures var n := Granted(bufSize, old(size));
        && ret == (if n == 0 then AVERROR_EOF else n)
        && ptr == old(ptr) + n && size == old(size) - n
        && buf[..n] == data[old(ptr)..ptr]
        && buf[n..] == old(buf[n..])
        && delivered == old(delivered) + buf[..n]
      ensures old(size) == 0 ==> ret == AVERROR_EOF && size == 0 && delivered == old(delivered)
    {
      var n := if bufSize < size then bufSize else size;
      if n == 0 {
        return AVERROR_EOF;
      }
      forall i | 0 <= i < n {
        buf[i] := data[ptr + i];
      }
      ptr := ptr + n;
      size := size - n;
      delivered := delivered + buf[..n];
      return n;
    }
  }

  /** What each library call of TestAVIOReading returns. */
  datatype AvioOutcomes = AvioOutcomes(
    mapRet: int,             // av_file_map
    bufferAllocates: bool,   // av_malloc of the AVIO buffer
    contextAllocates: bool,  // avio_alloc_context
    formatAllocates: bool,   // avformat_alloc_context
    openRet: int,            // avformat_open_input
    findInfoRet: int)        // avformat_find_stream_info

  /** The resources TestAVIOReading acquires. */
  datatype Resource = MappedFile | AvioBuffer | AvioContext | FormatContext

  /** The steps of TestAVIOReading, in order; Completed when none fails. */
  datatype AvioStep = MapFile | AllocBuffer | AllocAvio | AllocFormat | OpenFormat | FindInfo | Completed

  /** The position of a step in the order TestAVIOReading runs them. */
  function StepRank(s: AvioStep): nat {
    match s
    case MapFile => 0
    case AllocBuffer => 1
    case AllocAvio => 2
    case AllocFormat => 3
    case OpenFormat => 4
    case FindInfo => 5
    case Completed => 6
  }

  /** Whether step `s` succeeds under outcomes `o`. */
  predicate StepSucceeds(o: AvioOutcomes, s: AvioStep) {
    match s
    case MapFile => o.mapRet >= 0
    case AllocBuffer => o.bufferAllocates
    case AllocAvio => o.contextAllocates
    case AllocFormat => o.formatAllocates
    case OpenFormat => o.openRet >= 0
    case FindInfo => o.findInfoRet >= 0
    case Completed => true
  }

  /** The first step that fails: every step before it succeeds, and it does not (or it is Completed). */
  function FirstFailing(o: AvioOutcomes): (f: AvioStep)
    ensures forall s :: StepRank(s) < StepRank(f) ==> StepSucceeds(o, s)
    ensures f != Completed ==> !StepSucceeds(o, f)
  {
    if o.mapRet < 0 then MapFile
    else if !o.bufferAllocates then AllocBuffer
    else if !o.contextAllocates then AllocAvio
    else if !o.formatAllocates then AllocFormat
    else if o.openRet < 0 then OpenFormat
    else if o.findInfoRet < 0 then FindInfo
    else Completed
  }

  /**
   * The value of `ret` at the release block, set by the failing step or by
   * the last step when none fails: TestAVIOReading reports an error exactly
   * when a step failed, and a failing allocation reports ENOMEM.
   */
  function ResultCode(o: AvioOutcomes): (r: int)
    ensures r < 0 <==> FirstFailing(o) != Completed
    ensures FirstFailing(o) in {AllocBuffer, AllocAvio, AllocFormat} ==> r == AVERROR_ENOMEM
  {
    match FirstFailing(o)
    case MapFile => o.mapRet
    case AllocBuffer => AVERROR_ENOMEM
    case AllocAvio => AVERROR_ENOMEM
    case AllocFormat => AVERROR_ENOMEM
    case OpenFormat => o.openRet
    case FindInfo => o.findInfoRet
    case Completed => o.findInfoRet
  }

  /** Which of the four pointers are non-null when control reaches `end:`. */
  datatype Held = Held(buffer: bool, avioCtxBuffer: bool, avioCtx: bool, fmtCtx: bool)

  /**
   * The pointers held at `end:` given the first failing step: each step
   * before it acquired its resource; avformat_open_input frees the format
   * context it was given when it fails and nulls the pointer. They are
   * always nested, the file is mapped exactly when av_file_map succeeded,
   * and a format context is only held once it was opened, over an AVIO
   * context.
   */
  function HeldAtEnd(o: AvioOutcomes): (h: Held)
    ensures Nested(h)
    ensures h.buffer <==> o.mapRet >= 0
    ensures h.fmtCtx ==> h.avioCtx && o.openRet >= 0
  {
    var r := StepRank(FirstFailing(o));
    Held(r > StepRank(MapFile), r > StepRank(AllocBuffer), r > StepRank(AllocAvio),
         r > StepRank(OpenFormat))
  }

  /** The resources held, as a set. */
  function HeldSet(h: Held): set<Resource> {
    (if h.buffer then {MappedFile} else {}) + (if h.avioCtxBuffer then {AvioBuffer} else {})
    + (if h.avioCtx then {AvioContext} else {}) + (if h.fmtCtx then {FormatContext} else {})
  }

  /** An AVIO context is only created over the AVIO buffer, and the AVIO buffer after the file is mapped. */
  predicate Nested(h: Held) {
    (h.avioCtx ==> h.avioCtxBuffer) && (h.avioCtxBuffer ==> h.buffer)
  }

  /**
   * The release block as written: avformat_close_input, then the AVIO
   * buffer through `avio_ctx->buffer` and the AVIO context (both only when
   * there is a context), then av_file_unmap.
   */
  function ReleaseBlockAsWritten(h: Held): (log: seq<Resource>)
    ensures forall i, j :: 0 <= i < j < |log| ==> log[i] != log[j]
    ensures Nested(h) ==> forall r :: r in log ==> r in HeldSet(h)
    ensures Nested(h) ==> forall r :: r in HeldSet(h) && r !in log <==> r == AvioBuffer && h.avioCtxBuffer && !h.avioCtx
  {
    (if h.fmtCtx then [FormatContext] else [])
    + (if h.avioCtx then [AvioBuffer, AvioContext] else [])
    + (if h.buffer then [MappedFile] else [])
  }

  /**
   * When avio_alloc_context fails, the AVIO buffer from av_malloc is held
   * but the release block as written never frees it.
   */
  lemma AvioContextFailureLeaksBuffer()
    ensures var o := AvioOutcomes(0, true, false, true, 0, 0);
      && FirstFailing(o) == AllocAvio
      && AvioBuffer in HeldSet(HeldAtEnd(o))
      && AvioBuffer !in ReleaseBlockAsWritten(HeldAtEnd(o))
  {
  }

  /**
   * The release block as intended: the AVIO buffer is freed through the
   * context when there is one, and directly (av_freep(&avio_ctx_buffer))
   * when avio_alloc_context failed. It frees no resource twice, and for
   * nested pointers exactly the resources held.
   */
  function ReleaseBlock(h: Held): (log: seq<Resource>)
    ensures forall i, j :: 0 <= i < j < |log| ==> log[i] != log[j]
    ensures Nested(h) ==> forall r :: r in log <==> r in HeldSet(h)
  {
    (if h.fmtCtx then [FormatContext] else [])
    + (if h.avioCtx then [AvioBuffer, AvioContext] else if h.avioCtxBuffer then [AvioBuffer] else [])
    + (if h.buffer then [MappedFile] else [])
  }

  /**
   * TestAVIOReading: runs the steps in order, the first failure setting
   * `ret` and jumping to `end:`, which every path reaches; it reports an
   * error exactly when `ret` is negative there.
   */
  method TestAvioReading(o: AvioOutcomes) returns (ret: int, reportsError: bool, ghost released: seq<Resource>)
    ensures ret == ResultCode(o)
    ensures reportsError <==> ret < 0
    ensures released == ReleaseBlock(HeldAtEnd(o))
  {
    var buffer, avioCtxBuffer, avioCtx, fmtCtx := false, false, false, false;
    ret := 0;
    label end: {
      ret := o.mapRet;
      if ret < 0 {
        break end;
      }
      buffer := true;
      if !o.bufferAllocates {
        ret := AVERROR_ENOMEM;
        break end;
      }
      avioCtxBuffer := true;
      if !o.contextAllocates {
        ret := AVERROR_ENOMEM;
        break end;
      }
      avioCtx := true;
      if !o.formatAllocates {
        ret := AVERROR_ENOMEM;
        break end;
      }
      fmtCtx := true;
      ret := o.openRet;
      if ret < 0 {
        fmtCtx := false;
        break end;
      }
      ret := o.findInfoRet;
      if ret < 0 {
        break end;
      }
    }
    assert Held(buffer, avioCtxBuffer, avioCtx, fmtCtx) == HeldAtEnd(o);
    released := [];
    if fmtCtx {
      released := released + [FormatContext];
      fmtCtx := false;
    }
    if avioCtx {
      released := released + [AvioBuffer, AvioContext];
      avioCtx := false;
    } else if avioCtxBuffer {
      released := released + [AvioBuffer];
    }
    if buffer {
      released := released + [MappedFile];
    }
    reportsError := ret < 0;
  }
}
