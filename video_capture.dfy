/**
 * Capture::VideoCapture: a capture session that owns four FFmpeg handles
 * (format context, codec context, scaler context, decoded frame), finds the
 * first video stream of a v4l2 device and turns packets into RGB24 frames.
 */
module Capture {
  import opened FFmpegOracle

  /** What one std::unique_ptr holds: nothing, or a live resource acquired while opening `device`. */
  datatype Handle = Null | Live(id: nat, device: string)

  /** The four owned handles. */
  datatype Slot = Format | Codec | Scaler | Frame

  /** videoStreamIndex_ has no initializer: it is indeterminate until openSingleDevice assigns it. */
  datatype StreamIndex = Indeterminate | Assigned(index: int)

  /** The geometry arguments of one sws_scale call: first source row, source rows, destination stride. */
  datatype ScaleCall = ScaleCall(srcSliceY: int, srcSliceH: int, dstStride: int)

  const DefaultDevice: string := "all"
  const DefaultWidth: int := 640
  const DefaultHeight: int := 480
  const DefaultFps: int := 30
  /** Bytes per pixel of AV_PIX_FMT_RGB24. */
  const BytesPerPixel: int := 3

  /**
   * FFmpegDeleters: the resources one deleter call frees, each at most once:
   * exactly the resource the handle owns, so nothing for a null handle.
   */
  function Released(h: Handle): (freed: seq<nat>)
    ensures |freed| <= 1
    ensures freed != [] <==> h.Live?
    ensures freed != [] ==> Holds(h, freed[0])
  {
    if h.Live? then [h.id] else []
  }

  /**
   * The part of a session that opening a device reads and changes: the four
   * handles, the stream index, the packets the format context has still to
   * yield, the identity the library gives the next resource it allocates
   * (resource i is the i-th one acquired) and the resources freed so far,
   * in the order they were freed.
   */
  datatype Session = Session(fmt: Handle, codec: Handle, sws: Handle, frame: Handle,
                             stream: StreamIndex, packets: seq<Packet>, nextId: nat, freed: seq<nat>)

  /** A session before openDevice: nothing owned, nothing acquired. */
  const Unopened: Session := Session(Null, Null, Null, Null, Indeterminate, [], 0, [])

  /** The handle in `slot`. */
  function Holding(s: Session, slot: Slot): Handle {
    match slot
    case Format => s.fmt
    case Codec => s.codec
    case Scaler => s.sws
    case Frame => s.frame
  }

  /**
   * The library allocates resource `s.nextId` for `dev` into a temporary,
   * and unique_ptr::reset installs it in `slot`, running the deleter on what
   * the slot held.
   */
  function Install(s: Session, slot: Slot, dev: string): Session {
    var h := Live(s.nextId, dev);
    var t := s.(nextId := s.nextId + 1, freed := s.freed + Released(Holding(s, slot)));
    match slot
    case Format => t.(fmt := h)
    case Codec => t.(codec := h)
    case Scaler => t.(sws := h)
    case Frame => t.(frame := h)
  }

  /** avcodec_alloc_context3 allocates a codec context into a temporary that avcodec_free_context frees again. */
  function Discard(s: Session): Session {
    s.(nextId := s.nextId + 1, freed := s.freed + [s.nextId])
  }

  /** What one call of openSingleDevice returns and the session it leaves. */
  datatype Attempt = Attempt(succeeded: bool, after: Session)

  /** From `s` to `t` the allocation counter never goes back and the release log only grows at its end. */
  predicate Extends(s: Session, t: Session) {
    s.nextId <= t.nextId && |s.freed| <= |t.freed| && t.freed[..|s.freed|] == s.freed
  }

  /** All four handles of `t` hold resources acquired for device `name`. */
  predicate OpenedFor(t: Session, name: string) {
    && t.fmt.Live? && t.fmt.device == name && t.codec.Live? && t.codec.device == name
    && t.frame.Live? && t.frame.device == name && t.sws.Live? && t.sws.device == name
  }

  /**
   * openSingleDevice step by step: each successful acquisition is installed
   * at once, and the first failing step returns false with everything
   * installed so far left in place.
   */
  function OpenSingle(env: Backend, name: string, s: Session): (a: Attempt)
    ensures Extends(s, a.after)
    ensures a.succeeded ==> OpenedFor(a.after, name) && a.after.stream.Assigned? && 0 <= a.after.stream.index
    ensures !a.succeeded && (name !in env.devices || !env.devices[name].opensInput) ==> a.after == s
  {
    if name !in env.devices || !env.devices[name].opensInput then Attempt(false, s)
    else
      var d := env.devices[name];
      var s1 := Install(s, Format, name).(packets := d.packets);
      if !d.findsStreamInfo then Attempt(false, s1)
      else
        var v := FirstVideoStream(d.streams);
        var s2 := s1.(stream := Assigned(v));
        if v == -1 || d.streams[v].codecId !in env.decoders then Attempt(false, s2)
        else OpenDecoding(d, name, s2)
  }

  /**
   * The steps of openSingleDevice once a decoder is found: the codec context
   * (allocated, given the stream's parameters and opened, and freed again
   * when either of the last two fails), the frame and the converter.
   */
  function OpenDecoding(d: Device, name: string, s: Session): (a: Attempt)
    ensures Extends(s, a.after)
    ensures a.after.fmt == s.fmt && a.after.stream == s.stream && a.after.packets == s.packets
    ensures a.succeeded ==> && a.after.codec.Live? && a.after.codec.device == name
                            && a.after.frame.Live? && a.after.frame.device == name
                            && a.after.sws.Live? && a.after.sws.device == name
  {
    if !d.allocsCodecContext then Attempt(false, s)
    else if !d.copiesParameters || !d.opensCodec then Attempt(false, Discard(s))
    else
      var s1 := Install(s, Codec, name);
      if !d.allocsFrame then Attempt(false, s1)
      else
        var s2 := Install(s1, Frame, name);
        if !d.createsScaler then Attempt(false, s2)
        else Attempt(true, Install(s2, Scaler, name))
  }

  /**
   * One attempt replaced `was` by a resource acquired for `dev` during the
   * attempt (an identity handed out from `firstFresh` on) when `replaced`,
   * and left it otherwise.
   */
  predicate Installed(h: Handle, was: Handle, dev: string, firstFresh: nat, replaced: bool) {
    if replaced then h.Live? && h.device == dev && firstFresh <= h.id else h == was
  }

  /**
   * openSingleDevice in terms of the step at which it stops: it returns true
   * exactly when every step succeeds; the format context (and its packets)
   * is replaced once avformat_open_input succeeds, the stream index once
   * avformat_find_stream_info does, the codec context once avcodec_open2
   * does, the frame once av_frame_alloc does and the converter once
   * sws_getContext does; every other part of the session is left as it was.
   */
  lemma OpenSingleByStage(env: Backend, name: string, s: Session)
    ensures var a := OpenSingle(env, name, s);
      var r := Rank(Reached(env, name));
      && (a.succeeded <==> Reached(env, name) == Opened)
      && s.nextId <= a.after.nextId
      && Installed(a.after.fmt, s.fmt, name, s.nextId, r > Rank(OpenInput))
      && a.after.packets == (if r > Rank(OpenInput) then PacketsOf(env, name) else s.packets)
      && a.after.stream == (if r > Rank(FindStreamInfo) then Assigned(FirstVideoStream(StreamsOf(env, name)))
                            else s.stream)
      && Installed(a.after.codec, s.codec, name, s.nextId, r > Rank(OpenCodec))
      && Installed(a.after.frame, s.frame, name, s.nextId, r > Rank(AllocFrame))
      && Installed(a.after.sws, s.sws, name, s.nextId, r > Rank(CreateScaler))
  {
  }

  /** Handle `h` owns resource `id`. */
  predicate Holds(h: Handle, id: nat) {
    h.Live? && h.id == id
  }

  /** One of the four handles owns resource `id`. */
  predicate Owned(fmt: Handle, codec: Handle, sws: Handle, frame: Handle, id: nat) {
    Holds(fmt, id) || Holds(codec, id) || Holds(sws, id) || Holds(frame, id)
  }

  /** Two handles never own the same resource. */
  predicate Apart(a: Handle, b: Handle) {
    a.Live? && b.Live? ==> a.id != b.id
  }

  /**
   * The ownership ledger over the resources acquired so far (identities
   * below `nextId`): the four handles own distinct resources that have not
   * been freed, no resource has been freed twice, and every resource is
   * either owned or freed, so that nothing is leaked.
   */
  ghost predicate Accounted(fmt: Handle, codec: Handle, sws: Handle, frame: Handle, nextId: nat, freed: seq<nat>) {
    && Apart(fmt, codec) && Apart(fmt, sws) && Apart(fmt, frame)
    && Apart(codec, sws) && Apart(codec, frame) && Apart(sws, frame)
    && (forall id: nat :: Owned(fmt, codec, sws, frame, id) ==> id < nextId && id !in freed)
    && (forall i :: 0 <= i < |freed| ==> freed[i] < nextId)
    && (forall i, j :: 0 <= i < j < |freed| ==> freed[i] != freed[j])
    && (forall id :: 0 <= id < nextId ==> Owned(fmt, codec, sws, frame, id) || id in freed)
  }

  /** The session's ledger holds, and a codec context is only ever installed with the stream index assigned. */
  ghost predicate Consistent(s: Session) {
    && Accounted(s.fmt, s.codec, s.sws, s.frame, s.nextId, s.freed)
    && (s.codec.Live? ==> s.stream.Assigned?)
  }

  /**
   * unique_ptr::reset with a fresh resource keeps the ledger: what the slot
   * held had not been freed before, and is freed now.
   */
  lemma InstallKeepsConsistent(s: Session, slot: Slot, dev: string)
    requires Consistent(s)
    requires slot == Codec ==> s.stream.Assigned?
    ensures Holding(s, slot).Live? ==> Holding(s, slot).id !in s.freed
    ensures Consistent(Install(s, slot, dev))
  {
    var t := Install(s, slot, dev);
    var old_ := Holding(s, slot);
    forall h | h in [s.fmt, s.codec, s.sws, s.frame] && h.Live?
      ensures h.id < s.nextId
    {
      assert Owned(s.fmt, s.codec, s.sws, s.frame, h.id);
    }
    forall id | 0 <= id < t.nextId
      ensures Owned(t.fmt, t.codec, t.sws, t.frame, id) || id in t.freed
    {
      if id < s.nextId && !Owned(t.fmt, t.codec, t.sws, t.frame, id) && id !in s.freed {
        assert Owned(s.fmt, s.codec, s.sws, s.frame, id);
        assert Holds(old_, id);
      }
    }
    forall i, j | 0 <= i < j < |t.freed|
      ensures t.freed[i] != t.freed[j]
    {
      if j == |s.freed| {
        assert t.freed[j] == old_.id;
        assert t.freed[i] == s.freed[i];
        assert Owned(s.fmt, s.codec, s.sws, s.frame, old_.id);
      }
    }
    forall id: nat | Owned(t.fmt, t.codec, t.sws, t.frame, id)
      ensures id < t.nextId && id !in t.freed
    {
      if id != s.nextId {
        assert Owned(s.fmt, s.codec, s.sws, s.frame, id);
      }
    }
  }

  /** Allocating a temporary and freeing it again keeps the ledger. */
  lemma DiscardKeepsConsistent(s: Session)
    requires Consistent(s)
    ensures Consistent(Discard(s))
  {
    var t := Discard(s);
    forall i, j | 0 <= i < j < |t.freed|
      ensures t.freed[i] != t.freed[j]
    {
    }
    forall id | 0 <= id < t.nextId
      ensures Owned(t.fmt, t.codec, t.sws, t.frame, id) || id in t.freed
    {
      if id == s.nextId {
        assert t.freed[|s.freed|] == id;
      }
    }
  }

  /** Opening a device keeps the ledger, whatever step it stops at. */
  lemma OpenSingleKeepsConsistent(env: Backend, name: string, s: Session)
    requires Consistent(s)
    ensures Consistent(OpenSingle(env, name, s).after)
  {
    if name in env.devices && env.devices[name].opensInput {
      var d := env.devices[name];
      InstallKeepsConsistent(s, Format, name);
      var s1 := Install(s, Format, name).(packets := d.packets);
      var s2 := s1.(stream := Assigned(FirstVideoStream(d.streams)));
      DiscardKeepsConsistent(s2);
      InstallKeepsConsistent(s2, Codec, name);
      var s3 := Install(s2, Codec, name);
      InstallKeepsConsistent(s3, Frame, name);
      InstallKeepsConsistent(Install(s3, Frame, name), Scaler, name);
    }
  }

  /** openDevice's loop: the devices `names` attempted in order, each attempt starting from what the last left. */
  function OpenAll(env: Backend, names: seq<string>, s: Session): (t: Session)
    ensures Extends(s, t)
    decreases |names|
  {
    if names == [] then s
    else OpenSingle(env, names[|names| - 1], OpenAll(env, names[..|names| - 1], s)).after
  }

  /** Attempting any sequence of devices keeps the ledger. */
  lemma {:induction false} OpenAllKeepsConsistent(env: Backend, names: seq<string>, s: Session)
    requires Consistent(s)
    ensures Consistent(OpenAll(env, names, s))
    decreases |names|
  {
    if names != [] {
      var init := names[..|names| - 1];
      OpenAllKeepsConsistent(env, init, s);
      OpenSingleKeepsConsistent(env, names[|names| - 1], OpenAll(env, init, s));
    }
  }

  /**
   * After attempting `names` in order, handle `h` (which was `was` before) is
   * the one acquired for the last device whose attempt got past step `floor`.
   */
  predicate LeftBy(h: Handle, was: Handle, env: Backend, names: seq<string>, floor: nat) {
    var k := LastReachingIndex(env, names, floor);
    if k < 0 then h == was else h.Live? && h.device == names[k]
  }

  /**
   * What openDevice's loop leaves: each handle comes from the last device
   * that got past its step (or is the one held before when none did), the
   * packets from the last device whose input opened and the stream index
   * from the last device whose stream info was found.
   */
  lemma {:induction false} OpenAllLeaves(env: Backend, names: seq<string>, s: Session)
    ensures var t := OpenAll(env, names, s);
      && s.nextId <= t.nextId
      && LeftBy(t.fmt, s.fmt, env, names, Rank(OpenInput))
      && LeftBy(t.codec, s.codec, env, names, Rank(OpenCodec))
      && LeftBy(t.frame, s.frame, env, names, Rank(AllocFrame))
      && LeftBy(t.sws, s.sws, env, names, Rank(CreateScaler))
      && (var k := LastReachingIndex(env, names, Rank(OpenInput));
          t.packets == if k < 0 then s.packets else PacketsOf(env, names[k]))
      && (var k := LastReachingIndex(env, names, Rank(FindStreamInfo));
          t.stream == if k < 0 then s.stream else Assigned(FirstVideoStream(StreamsOf(env, names[k]))))
    decreases |names|
  {
    if names != [] {
      var i := |names| - 1;
      var init := names[..i];
      assert names[..i + 1] == names;
      OpenAllLeaves(env, init, s);
      OpenSingleByStage(env, names[i], OpenAll(env, init, s));
      LastReachingSnoc(env, names, i, Rank(OpenInput));
      LastReachingSnoc(env, names, i, Rank(FindStreamInfo));
      LastReachingSnoc(env, names, i, Rank(OpenCodec));
      LastReachingSnoc(env, names, i, Rank(AllocFrame));
      LastReachingSnoc(env, names, i, Rank(CreateScaler));
    }
  }

  /** What the four deleters free at destruction, in order. */
  function Remaining(s: Session): seq<nat> {
    Released(s.frame) + Released(s.sws) + Released(s.codec) + Released(s.fmt)
  }

  /**
   * The destructor's release sequence: the members are destroyed in reverse
   * declaration order (frame_, swsCtx_, codecCtx_, fmtCtx_), each deleter
   * freeing the resource of a non-null handle.
   */
  function Teardown(s: Session): (log: seq<nat>)
    ensures |s.freed| <= |log| <= |s.freed| + 4 && log[..|s.freed|] == s.freed
    ensures forall id :: id in log <==> id in s.freed || Owned(s.fmt, s.codec, s.sws, s.frame, id)
  {
    s.freed + Remaining(s)
  }

  /** The four handles own distinct resources, so the deleters free no resource twice. */
  lemma RemainingDistinct(s: Session)
    requires Apart(s.fmt, s.codec) && Apart(s.fmt, s.sws) && Apart(s.fmt, s.frame)
    requires Apart(s.codec, s.sws) && Apart(s.codec, s.frame) && Apart(s.sws, s.frame)
    ensures var tail := Remaining(s); forall i, j :: 0 <= i < j < |tail| ==> tail[i] != tail[j]
  {
  }

  /** After the destructor, every resource the session ever acquired has been freed exactly once. */
  lemma TeardownFreesEachOnce(s: Session)
    requires Consistent(s)
    ensures var log := Teardown(s);
      && (forall id :: 0 <= id < s.nextId <==> id in log)
      && (forall i, j :: 0 <= i < j < |log| ==> log[i] != log[j])
  {
    var log := Teardown(s);
    var tail := Remaining(s);
    assert log == s.freed + tail;
    RemainingDistinct(s);
    forall i, j | 0 <= i < j < |log|
      ensures log[i] != log[j]
    {
      if i < |s.freed| <= j {
        assert log[j] == tail[j - |s.freed|];
        assert Holds(s.frame, log[j]) || Holds(s.sws, log[j]) || Holds(s.codec, log[j]) || Holds(s.fmt, log[j]);
        assert log[i] in s.freed;
      } else if |s.freed| <= i {
        assert log[i] == tail[i - |s.freed|] && log[j] == tail[j - |s.freed|];
      }
    }
  }

  /** The bytes of one RGB24 image of w x h pixels. */
  function FrameBytes(w: int, h: int): (n: nat)
    requires 0 < w && 0 < h
  {
    w * h * BytesPerPixel
  }

  /** std::vector<uint8_t>::resize: keeps the common prefix and zero-fills the rest. */
  function Resize(v: seq<bv8>, n: nat): (r: seq<bv8>)
    ensures |r| == n
    ensures forall i :: 0 <= i < n && i < |v| ==> r[i] == v[i]
    ensures forall i :: |v| <= i < n ==> r[i] == 0
  {
    if n <= |v| then v[..n] else v + seq(n - |v|, _ => 0)
  }

  /** The caller's output vector. */
  class ByteVector {
    var bytes: seq<bv8>

    constructor (bytes: seq<bv8>)
      ensures this.bytes == bytes
    {
      this.bytes := bytes;
    }
  }

  /**
   * The devices openDevice attempts, in order: none without the v4l2 input
   * format or with an empty name, the listed devices for "all", otherwise
   * the given name alone.
   */
  function Candidates(env: Backend, name: string): (r: seq<string>)
    ensures r != [] ==> env.hasV4l2 && name != ""
    ensures env.hasV4l2 && name == "all" ==> r == ListedNames(env.listing)
    ensures env.hasV4l2 && name != "" && name != "all" ==> r == [name]
  {
    if !env.hasV4l2 || name == "" then []
    else if name == "all" then ListedNames(env.listing)
    else [name]
  }

  /** The outcome of getAllDevices as written, where the loop reads through a null owner. */
  datatype ListOutcome = Completed(names: seq<string>) | NullDereference

  /**
   * getAllDevices as written: the loop bound comes from `device_list`, but
   * each entry is read through `deviceListPtr`, which was constructed empty,
   * so the first iteration dereferences a null pointer.
   */
  function GetAllDevicesAsWritten(list: DeviceList, deviceNames: seq<string>): (r: ListOutcome)
    ensures r.Completed? <==> list.ListingFailed? || |list.entries| == 0
    ensures r.Completed? ==> r.names == deviceNames + ListedNames(list)
  {
    match list
    case ListingFailed => Completed(deviceNames)
    case Listed(entries) => if |entries| == 0 then Completed(deviceNames) else NullDereference
  }

  /** A listing with one null entry already makes the code as written fault, where the intent lists nothing. */
  lemma NullEntryListingFaults()
    ensures GetAllDevicesAsWritten(Listed([None]), []) == NullDereference
    ensures ListedNames(Listed([None])) == []
  {
    assert Listed([None]).entries[..0] == [];
  }

  /**
   * An attempt that fails after avformat_open_input but no later than
   * avcodec_open2 installs a fresh format context (and its packets) for the
   * new device while the codec context, frame and converter stay whatever
   * an earlier device left; the stream index is left stale when the stream
   * info is missing, and is -1 when the device has no video stream.
   */
  lemma LateFailureMixesDevices(env: Backend, name: string, s: Session)
    requires Rank(OpenInput) < Rank(Reached(env, name)) <= Rank(OpenCodec)
    ensures var a := OpenSingle(env, name, s);
      && !a.succeeded
      && a.after.fmt.Live? && a.after.fmt.device == name && s.nextId <= a.after.fmt.id
      && a.after.packets == PacketsOf(env, name)
      && a.after.codec == s.codec && a.after.frame == s.frame && a.after.sws == s.sws
      && (Reached(env, name) == FindStreamInfo ==> a.after.stream == s.stream)
      && (Reached(env, name) == FindVideoStream ==> a.after.stream == Assigned(-1))
  {
    OpenSingleByStage(env, name, s);
  }

  class VideoCapture {
    var fmtCtx: Handle
    var codecCtx: Handle
    var swsCtx: Handle
    var frame: Handle
    var videoStreamIndex: StreamIndex
    const deviceName: string
    const width: int
    const height: int
    const fps: int

    /** The packets av_read_frame on the installed format context has still to yield. */
    var packets: seq<Packet>
    /** The identity the library gives the next resource it allocates. */
    var nextId: nat

    /** The resources freed, in the order they were freed. */
    ghost var releaseLog: seq<nat>
    /** The device names openSingleDevice was called with, in order. */
    ghost var attempts: seq<string>
    /** Every packet handed to avcodec_send_packet, in order. */
    ghost var submitted: seq<Packet>
    /** Every packet released with av_packet_unref, in order. */
    ghost var unreffed: seq<Packet>
    /** The last sws_scale call. */
    ghost var lastScale: Option<ScaleCall>

    /** The fields opening a device reads and changes, as one value. */
    ghost function State(): Session
      reads this`fmtCtx, this`codecCtx, this`swsCtx, this`frame, this`videoStreamIndex
      reads this`packets, this`nextId, this`releaseLog
    {
      Session(fmtCtx, codecCtx, swsCtx, frame, videoStreamIndex, packets, nextId, releaseLog)
    }

    /** The object invariant: a positive geometry, and the session's ledger holds. */
    ghost predicate Valid()
      reads this`fmtCtx, this`codecCtx, this`swsCtx, this`frame, this`videoStreamIndex
      reads this`packets, this`nextId, this`releaseLog
    {
      0 < width && 0 < height && Consistent(State())
    }

    /** width_ * height_ * 3, the size readFrame gives the output, does not overflow an `int`. */
    predicate FrameSizeFitsInt()
    {
      0 < width && 0 < height && width * height * BytesPerPixel <= INT_MAX
    }

    /** readFrame's guard: all four handles are installed. */
    predicate Ready()
      reads this`fmtCtx, this`codecCtx, this`swsCtx, this`frame
    {
      !(fmtCtx.Null? || codecCtx.Null? || frame.Null? || swsCtx.Null?)
    }

    /**
     * VideoCapture(deviceName = "all", width = 640, height = 480, fps = 30):
     * stores the settings and runs openDevice; nothing is owned beforehand.
     */
    constructor (env: Backend, deviceName: string := DefaultDevice, width: int := DefaultWidth,
                 height: int := DefaultHeight, fps: int := DefaultFps)
      requires 0 < width && 0 < height && width * height * BytesPerPixel <= INT_MAX
      ensures Valid() && FrameSizeFitsInt()
      ensures this.deviceName == deviceName && this.width == width && this.height == height && this.fps == fps
      ensures attempts == Candidates(env, deviceName)
      ensures State() == OpenAll(env, attempts, Unopened)
      ensures submitted == [] && unreffed == [] && lastScale == None
    {
      this.deviceName := deviceName;
      this.width := width;
      this.height := height;
      this.fps := fps;
      fmtCtx, codecCtx, swsCtx, frame := Null, Null, Null, Null;
      videoStreamIndex := Indeterminate;
      packets := [];
      nextId := 0;
      releaseLog, attempts := [], [];
      submitted, unreffed, lastScale := [], [], None;
      new;
      assert State() == Unopened;
      OpenDevice(env);
    }

    /**
     * readFrame: reads packets until one of the selected stream is sent and
     * decoded into a frame, then sizes `outRGB` for one RGB24 image of
     * width x height and converts into it. Packets of other streams, packets
     * whose send fails and packets after which no frame is ready (EAGAIN or
     * an error) are released and skipped; false means the packets ran out or
     * the session is not fully open.
     */
    method ReadFrame(outRGB: ByteVector) returns (ok: bool)
      requires Valid()
      modifies this`packets, this`submitted, this`unreffed, this`lastScale, outRGB
      ensures Valid()
      ensures !old(Ready()) ==> (!ok && packets == old(packets) && submitted == old(submitted)
                           && unreffed == old(unreffed) && outRGB.bytes == old(outRGB.bytes))
      ensures old(Ready()) ==>
        var video := videoStreamIndex.index;
        var read := Consumed(old(packets), video);
        && (ok <==> FirstFrame(old(packets), video) < |old(packets)|)
        && packets == old(packets)[read..]
        && submitted == old(submitted) + OfStream(old(packets)[..read], video)
        && unreffed == old(unreffed) + old(packets)[..read]
      ensures ok ==> (|outRGB.bytes| == FrameBytes(width, height)
                      && lastScale == Some(ScaleCall(0, height, width * BytesPerPixel)))
      ensures !ok ==> outRGB.bytes == old(outRGB.bytes) && lastScale == old(lastScale)
      ensures !ok && old(Ready()) ==> packets == []
    {
      if fmtCtx.Null? || codecCtx.Null? || frame.Null? || swsCtx.Null? {
        return false;
      }
      var video := videoStreamIndex.index;
      var ps := packets;
      ghost var sent: seq<Packet> := [];
      ghost var released: seq<Packet> := [];
      var i := 0;
      ok := false;
      while i < |ps|
        invariant i <= FirstFrame(ps, video)
        invariant sent == OfStream(ps[..i], video)
        invariant released == ps[..i]
        invariant !ok
      {
        var pkt := ps[i];
        assert ps[..i + 1] == ps[..i] + [pkt];
        i := i + 1;
        if pkt.streamIndex == video {
          sent := sent + [pkt];
          if pkt.sendRet < 0 {
            released := released + [pkt];
            continue;
          }
          if pkt.receiveRet == 0 {
            released := released + [pkt];
            ok := true;
            break;
          } else if pkt.receiveRet != AVERROR_EAGAIN {
            // a receive error other than EAGAIN is only logged
          }
        }
        released := released + [pkt];
      }
      assert !ok ==> ps[..i] == ps;
      assert Consumed(ps, video) == i;
      ghost var before := State();
      packets := ps[i..];
      submitted := submitted + sent;
      unreffed := unreffed + released;
      assert State() == before.(packets := ps[i..]);
      if ok {
        outRGB.bytes := Resize(outRGB.bytes, FrameBytes(width, height));
        lastScale := Some(ScaleCall(0, height, width * BytesPerPixel));
      }
    }

    /**
     * getAllDevices as intended: appends the name of every non-null entry
     * of the listing, in order; a failed listing appends nothing.
     */
    method GetAllDevices(list: DeviceList, deviceNames: seq<string>) returns (names: seq<string>)
      ensures names == deviceNames + ListedNames(list)
    {
      names := deviceNames;
      if list.ListingFailed? {
        return;
      }
      var entries := list.entries;
      for i := 0 to |entries|
        invariant names == deviceNames + NonNullNames(entries[..i])
      {
        NonNullNamesSnoc(entries, i);
        var device := entries[i];
        if device.None? {
          continue;
        }
        names := names + [device.value.name];
      }
      assert entries[..|entries|] == entries;
    }

    /** The first stream of `streams` whose media type is video, or -1 (the stream search of openSingleDevice). */
    static method FindVideoStream(streams: seq<Stream>) returns (index: int)
      ensures index == FirstVideoStream(streams)
    {
      index := -1;
      var i := 0;
      while i < |streams|
        invariant 0 <= i <= |streams| && index == -1
        invariant forall j :: 0 <= j < i ==> streams[j].mediaType != Video
      {
        if streams[i].mediaType == Video {
          index := i;
          break;
        }
        i := i + 1;
      }
    }

    /**
     * openSingleDevice: the ordered acquisition sequence for one device. Every
     * acquisition goes into a temporary and is installed with
     * unique_ptr::reset as soon as it succeeds, which frees what the slot held.
     */
    method OpenSingleDevice(env: Backend, devName: string) returns (ok: bool)
      modifies this`fmtCtx, this`codecCtx, this`swsCtx, this`frame, this`videoStreamIndex
      modifies this`packets, this`nextId, this`releaseLog
      ensures State() == OpenSingle(env, devName, old(State())).after
      ensures ok == OpenSingle(env, devName, old(State())).succeeded
    {
      if devName !in env.devices || !env.devices[devName].opensInput {
        return false;
      }
      var d := env.devices[devName];
      var tmpFmt := Live(nextId, devName);
      nextId := nextId + 1;
      releaseLog, fmtCtx := releaseLog + Released(fmtCtx), tmpFmt;
      packets := d.packets;
      if !d.findsStreamInfo {
        return false;
      }
      var index := FindVideoStream(d.streams);
      videoStreamIndex := Assigned(index);
      assert State() == Install(old(State()), Format, devName).(packets := d.packets, stream := Assigned(index));
      if index == -1 {
        return false;
      }
      if d.streams[index].codecId !in env.decoders {
        return false;
      }
      ok := OpenDecodingSteps(d, devName);
    }

    /**
     * The rest of openSingleDevice once the decoder is found:
     * avcodec_alloc_context3, avcodec_parameters_to_context, avcodec_open2
     * (the temporary context freed with avcodec_free_context when either of
     * the last two fails), av_frame_alloc and sws_getContext.
     */
    method OpenDecodingSteps(d: Device, devName: string) returns (ok: bool)
      modifies this`codecCtx, this`swsCtx, this`frame, this`nextId, this`releaseLog
      ensures State() == OpenDecoding(d, devName, old(State())).after
      ensures ok == OpenDecoding(d, devName, old(State())).succeeded
    {
      if !d.allocsCodecContext {
        return false;
      }
      var tmpCodecCtx := Live(nextId, devName);
      nextId := nextId + 1;
      if !d.copiesParameters {
        releaseLog := releaseLog + Released(tmpCodecCtx);
        return false;
      }
      if !d.opensCodec {
        releaseLog := releaseLog + Released(tmpCodecCtx);
        return false;
      }
      releaseLog, codecCtx := releaseLog + Released(codecCtx), tmpCodecCtx;
      if !d.allocsFrame {
        return false;
      }
      var tmpFrame := Live(nextId, devName);
      nextId := nextId + 1;
      releaseLog, frame := releaseLog + Released(frame), tmpFrame;
      if !d.createsScaler {
        return false;
      }
      var tmpSws := Live(nextId, devName);
      nextId := nextId + 1;
      releaseLog, swsCtx := releaseLog + Released(swsCtx), tmpSws;
      return true;
    }

    /**
     * openDevice: builds the candidate list and attempts every candidate in
     * order, whatever the earlier attempts returned.
     */
    method OpenDevice(env: Backend)
      requires Valid()
      modifies this`fmtCtx, this`codecCtx, this`swsCtx, this`frame, this`videoStreamIndex
      modifies this`packets, this`nextId, this`releaseLog, this`attempts
      ensures attempts == old(attempts) + Candidates(env, deviceName)
      ensures State() == OpenAll(env, Candidates(env, deviceName), old(State()))
      ensures Valid()
    {
      if !env.hasV4l2 {
        return;
      }
      if deviceName == "" {
        return;
      }
      var deviceNames: seq<string> := [];
      if deviceName == "all" {
        deviceNames := GetAllDevices(env.listing, deviceNames);
      } else {
        deviceNames := deviceNames + [deviceName];
      }
      for i := 0 to |deviceNames|
        invariant attempts == old(attempts) + deviceNames[..i]
        invariant State() == OpenAll(env, deviceNames[..i], old(State()))
      {
        var devName := deviceNames[i];
        assert deviceNames[..i + 1][..i] == deviceNames[..i];
        attempts := attempts + [devName];
        var _ := OpenSingleDevice(env, devName);
      }
      assert deviceNames[..|deviceNames|] == deviceNames;
      OpenAllKeepsConsistent(env, deviceNames, old(State()));
    }

    /**
     * ~VideoCapture: the members are destroyed in reverse declaration order,
     * each deleter freeing its resource only when the handle is non-null.
     */
    method Destroy()
      modifies this`fmtCtx, this`codecCtx, this`swsCtx, this`frame, this`releaseLog
      ensures fmtCtx == Null && codecCtx == Null && swsCtx == Null && frame == Null
      ensures releaseLog == Teardown(old(State()))
    {
      releaseLog := releaseLog + Released(frame) + Released(swsCtx) + Released(codecCtx) + Released(fmtCtx);
      frame, swsCtx, codecCtx, fmtCtx := Null, Null, Null, Null;
    }
  }
}
