/**
 * The FFmpeg library as the capture session sees it: every call whose
 * behaviour is not visible here (av_read_frame, avcodec_send_packet,
 * avcodec_receive_frame, avformat_open_input, avformat_find_stream_info,
 * avdevice_list_input_sources, avcodec_find_decoder, ...) becomes an
 * outcome fixed in advance, and the functions below say what the session
 * does with those outcomes.
 */
module FFmpegOracle {

  datatype Option<T> = None | Some(value: T)

  /** AVERROR(EAGAIN) on Linux: the decoder needs more input. */
  const AVERROR_EAGAIN: int := -11
  /** AVERROR(ENOMEM). */
  const AVERROR_ENOMEM: int := -12
  /** AVERROR_EOF, that is -MKTAG('E', 'O', 'F', ' '). */
  const AVERROR_EOF: int := -0x2046_4F45
  /** Largest value of a C++ `int`. */
  const INT_MAX: int := 0x7FFF_FFFF

  /**
   * One packet that av_read_frame yields: the stream it belongs to, what
   * avcodec_send_packet returns for it (negative is a failure) and what
   * avcodec_receive_frame returns right after (0 is a frame).
   */
  datatype Packet = Packet(streamIndex: int, sendRet: int, receiveRet: int)

  /** The read loop turns packet `p` into a frame when the decoder is on stream `video`. */
  predicate YieldsFrame(p: Packet, video: int) {
    p.streamIndex == video && p.sendRet >= 0 && p.receiveRet == 0
  }

  /**
   * Position of the first packet of `ps` that the read loop turns into a
   * frame, or |ps| when there is none.
   */
  function FirstFrame(ps: seq<Packet>, video: int): (k: nat)
    ensures k <= |ps|
    ensures k < |ps| ==> YieldsFrame(ps[k], video)
    ensures forall j :: 0 <= j < k ==> !YieldsFrame(ps[j], video)
  {
    if ps == [] then 0
    else if YieldsFrame(ps[0], video) then 0
    else 1 + FirstFrame(ps[1..], video)
  }

  /**
   * How many packets of `ps` the read loop takes: up to and including the
   * first that yields a frame, or all of them when none does.
   */
  function Consumed(ps: seq<Packet>, video: int): (n: nat)
    ensures n <= |ps|
  {
    var k := FirstFrame(ps, video);
    if k < |ps| then k + 1 else k
  }

  /**
   * The read loop stops right after the first packet that yields a frame:
   * none of the packets before the last one it takes yields one, the last
   * one does when any packet does, and it takes them all when none does.
   */
  lemma ConsumedUpToFirstFrame(ps: seq<Packet>, video: int)
    ensures var n := Consumed(ps, video);
      && (forall j :: 0 <= j < n - 1 ==> !YieldsFrame(ps[j], video))
      && ((exists j :: 0 <= j < |ps| && YieldsFrame(ps[j], video)) ==> 0 < n && YieldsFrame(ps[n - 1], video))
      && ((forall j :: 0 <= j < |ps| ==> !YieldsFrame(ps[j], video)) ==> n == |ps|)
  {
  }

  /** The packets of `ps` that belong to stream `video`, in order. */
  function OfStream(ps: seq<Packet>, video: int): (r: seq<Packet>)
    ensures |r| <= |ps|
    ensures forall i :: 0 <= i < |r| ==> r[i].streamIndex == video
  {
    if ps == [] then []
    else
      var init := OfStream(ps[..|ps| - 1], video);
      var last := ps[|ps| - 1];
      assert ps == ps[..|ps| - 1] + [last];
      if last.streamIndex == video then init + [last] else init
  }

  /** OfStream keeps exactly the packets of stream `video`. */
  lemma {:induction false} OfStreamMembers(ps: seq<Packet>, video: int)
    ensures forall p :: p in OfStream(ps, video) <==> p in ps && p.streamIndex == video
  {
    if ps != [] {
      var init := ps[..|ps| - 1];
      OfStreamMembers(init, video);
      assert ps == init + [ps[|ps| - 1]];
    }
  }

  /** Extending the packets read by one extends the submitted ones by at most that one. */
  lemma OfStreamSnoc(ps: seq<Packet>, i: nat, video: int)
    requires i < |ps|
    ensures OfStream(ps[..i + 1], video)
         == OfStream(ps[..i], video) + (if ps[i].streamIndex == video then [ps[i]] else [])
  {
    assert ps[..i + 1][..i] == ps[..i];
  }

  datatype MediaType = Video | Audio | Data | Subtitle | Attachment | Unknown

  /** One entry of the stream table: its media type and codec id. */
  datatype Stream = Stream(mediaType: MediaType, codecId: nat)

  /** The lowest index whose stream is video, or -1 when there is none. */
  function FirstVideoStream(streams: seq<Stream>): (i: int)
    ensures -1 <= i < |streams|
    ensures 0 <= i ==> streams[i].mediaType == Video
    ensures 0 <= i ==> forall j :: 0 <= j < i ==> streams[j].mediaType != Video
    ensures i == -1 <==> forall j :: 0 <= j < |streams| ==> streams[j].mediaType != Video
  {
    if streams == [] then -1
    else if streams[0].mediaType == Video then 0
    else
      var rest := FirstVideoStream(streams[1..]);
      if rest == -1 then -1 else rest + 1
  }

  /**
   * How one capture device behaves, call by call, when opened:
   * avformat_open_input, avformat_find_stream_info, the stream table,
   * avcodec_alloc_context3, avcodec_parameters_to_context, avcodec_open2,
   * av_frame_alloc, sws_getContext, and the packets av_read_frame then yields.
   */
  datatype Device = Device(
    opensInput: bool,
    findsStreamInfo: bool,
    streams: seq<Stream>,
    allocsCodecContext: bool,
    copiesParameters: bool,
    opensCodec: bool,
    allocsFrame: bool,
    createsScaler: bool,
    packets: seq<Packet>)

  /** One entry of an AVDeviceInfoList. */
  datatype DeviceInfo = DeviceInfo(name: string, description: string)

  /** What avdevice_list_input_sources produces: a failure, or the entries, some of them null. */
  datatype DeviceList = ListingFailed | Listed(entries: seq<Option<DeviceInfo>>)

  /**
   * The library as a whole: whether the "v4l2" input format exists, the
   * device listing, how each device name behaves (a name that is absent
   * cannot be opened) and the codec ids that have a decoder.
   */
  datatype Backend = Backend(
    hasV4l2: bool,
    listing: DeviceList,
    devices: map<string, Device>,
    decoders: set<nat>)

  /**
   * The names of the non-null entries of a listing, in order; none when
   * listing failed. Exactly the names of the non-null entries are listed
   * (and the order is that of the entries, by NonNullNamesAppend).
   */
  function ListedNames(list: DeviceList): (names: seq<string>)
    ensures list.ListingFailed? ==> names == []
    ensures list.Listed? ==> |names| <= |list.entries|
    ensures list.Listed? ==> forall n :: n in names ==> exists e :: e in list.entries && e.Some? && e.value.name == n
    ensures list.Listed? ==> forall i :: 0 <= i < |list.entries| && list.entries[i].Some? ==>
      list.entries[i].value.name in names
  {
    match list
    case ListingFailed => []
    case Listed(entries) => NonNullNames(entries)
  }

  function NonNullNames(entries: seq<Option<DeviceInfo>>): (names: seq<string>)
    ensures |names| <= |entries|
    ensures forall n :: n in names ==> exists e :: e in entries && e.Some? && e.value.name == n
    ensures forall i :: 0 <= i < |entries| && entries[i].Some? ==> entries[i].value.name in names
  {
    if entries == [] then []
    else
      var init := NonNullNames(entries[..|entries| - 1]);
      var last := entries[|entries| - 1];
      assert forall e :: e in entries[..|entries| - 1] ==> e in entries;
      assert forall i :: 0 <= i < |entries| - 1 ==> entries[..|entries| - 1][i] == entries[i];
      match last
      case None => init
      case Some(info) => init + [info.name]
  }

  /**
   * The names of a listing split in two are the names of the first part
   * followed by those of the second: the listing order is kept.
   */
  lemma {:induction false} NonNullNamesAppend(a: seq<Option<DeviceInfo>>, b: seq<Option<DeviceInfo>>)
    ensures NonNullNames(a + b) == NonNullNames(a) + NonNullNames(b)
    decreases |b|
  {
    if b == [] {
      assert a + b == a;
    } else {
      var init := b[..|b| - 1];
      assert (a + b)[..|a + b| - 1] == a + init;
      assert (a + b)[|a + b| - 1] == b[|b| - 1];
      NonNullNamesAppend(a, init);
    }
  }

  /** A single null entry lists nothing, and a single device lists its name. */
  lemma OneEntryNames(e: Option<DeviceInfo>)
    ensures NonNullNames([e]) == if e.Some? then [e.value.name] else []
  {
    assert [e][..0] == [];
  }

  lemma NonNullNamesSnoc(entries: seq<Option<DeviceInfo>>, i: nat)
    requires i < |entries|
    ensures NonNullNames(entries[..i + 1])
         == NonNullNames(entries[..i]) + (if entries[i].Some? then [entries[i].value.name] else [])
  {
    assert entries[..i + 1][..i] == entries[..i];
  }

  /** The step of openSingleDevice at which opening a device stops. */
  datatype Stage =
    | OpenInput          // avformat_open_input failed
    | FindStreamInfo     // avformat_find_stream_info failed
    | FindVideoStream    // no stream is video
    | FindDecoder        // no decoder for the video stream's codec
    | AllocCodecContext  // avcodec_alloc_context3 failed
    | CopyParameters     // avcodec_parameters_to_context failed
    | OpenCodec          // avcodec_open2 failed
    | AllocFrame         // av_frame_alloc failed
    | CreateScaler       // sws_getContext failed
    | Opened             // every step succeeded

  /** The position of a stage in the order openSingleDevice runs its steps. */
  function Rank(s: Stage): nat {
    match s
    case OpenInput => 0
    case FindStreamInfo => 1
    case FindVideoStream => 2
    case FindDecoder => 3
    case AllocCodecContext => 4
    case CopyParameters => 5
    case OpenCodec => 6
    case AllocFrame => 7
    case CreateScaler => 8
    case Opened => 9
  }

  function StreamsOf(env: Backend, name: string): seq<Stream> {
    if name in env.devices then env.devices[name].streams else []
  }

  function PacketsOf(env: Backend, name: string): seq<Packet> {
    if name in env.devices then env.devices[name].packets else []
  }

  /** The stage at which openSingleDevice stops for device `name`: the first step that fails, or Opened. */
  function Reached(env: Backend, name: string): (s: Stage)
    ensures s == Opened ==> name in env.devices && 0 <= FirstVideoStream(StreamsOf(env, name))
  {
    if name !in env.devices || !env.devices[name].opensInput then OpenInput
    else
      var d := env.devices[name];
      var v := FirstVideoStream(d.streams);
      if !d.findsStreamInfo then FindStreamInfo
      else if v == -1 then FindVideoStream
      else if d.streams[v].codecId !in env.decoders then FindDecoder
      else if !d.allocsCodecContext then AllocCodecContext
      else if !d.copiesParameters then CopyParameters
      else if !d.opensCodec then OpenCodec
      else if !d.allocsFrame then AllocFrame
      else if !d.createsScaler then CreateScaler
      else Opened
  }

  /**
   * Among the devices `names`, attempted in order, the position of the last
   * one whose attempt got past step `floor` (so that its handle for that step
   * is the one left installed), or -1 when none did.
   */
  function LastReachingIndex(env: Backend, names: seq<string>, floor: nat): (k: int)
    ensures -1 <= k < |names|
    ensures 0 <= k ==> Rank(Reached(env, names[k])) > floor
    ensures forall j :: k < j < |names| ==> Rank(Reached(env, names[j])) <= floor
  {
    if names == [] then -1
    else if Rank(Reached(env, names[|names| - 1])) > floor then |names| - 1
    else LastReachingIndex(env, names[..|names| - 1], floor)
  }

  lemma LastReachingSnoc(env: Backend, names: seq<string>, i: nat, floor: nat)
    requires i < |names|
    ensures LastReachingIndex(env, names[..i + 1], floor)
         == if Rank(Reached(env, names[i])) > floor then i else LastReachingIndex(env, names[..i], floor)
  {
    assert names[..i + 1][..i] == names[..i];
  }
}
