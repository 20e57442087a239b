# ByteTalk capture core in Dafny

This project models the video-capture core of ByteTalk and the AVIO
reading demo that sits beside it.

- `Capture::VideoCapture` owns four FFmpeg resources, each through a
  `std::unique_ptr` with `FFmpegDeleters`: a format context, a codec context,
  a scaler context and a decoded frame.
  - `openDevice` picks the v4l2 devices to try: every listed device for
    `"all"`, otherwise the one given.
  - `openSingleDevice` acquires the resources step by step for one device.
    It installs each one with `reset` as soon as it succeeds, so every
    attempt starts from whatever the previous attempts left.
  - `readFrame` pulls packets until one of the video stream decodes into a
    frame, then converts it into an RGB24 byte vector.
- `Demo::TestTrigger::TestAVIOReading` maps a file into memory and reads it
  back through a custom AVIO context whose callback, `read_packet`, is a
  cursor over the mapped bytes. Every failing step jumps to one shared
  release block.

FFmpeg's own behaviour is not visible here, so the model treats it as an
oracle.
- The `FFmpegOracle` module describes each device and library call by the
  outcome it returns: whether `avformat_open_input` opens it, its stream
  table, which codec ids have a decoder, and the packets `av_read_frame`
  yields with what `avcodec_send_packet` and `avcodec_receive_frame` return
  for each.
- Resources are numbered in the order the library allocates them.
- A ghost release log records every resource a deleter frees.

The opening code is proved against functions on a `Session` value (the
handles, the stream index, the pending packets, the allocation counter and
the release log):
- `OpenSingle` models one `openSingleDevice` call.
- `OpenAll` models `openDevice`'s loop.

The lemmas beside them prove three things:
- the ownership ledger is kept by every attempt: nothing is leaked, nothing
  is freed twice, and no two handles own the same resource;
- which device each handle comes from after any sequence of attempts;
- the destructor frees every resource ever acquired exactly once.

## Model

| member | source | states |
|---|---|---|
| FFmpegOracle.FirstFrame | Capture/VideoCapture.cpp:37-59 | The position of the first packet that readFrame's loop turns into a frame: it is on the video stream, its send succeeds and its receive returns 0. No earlier packet does all three. It is \|ps\| when no packet does. |
| FFmpegOracle.ConsumedUpToFirstFrame | Capture/VideoCapture.cpp:37-59 | readFrame's loop takes packets up to and including the first that yields a frame. None of the packets before the last one taken yields a frame. The last one taken does when any packet does. All packets are taken when none does. |
| FFmpegOracle.OfStream | Capture/VideoCapture.cpp:38-39 | The packets submitted to the decoder: every one of them is on the selected stream, and there are no more of them than packets read. |
| FFmpegOracle.OfStreamMembers | Capture/VideoCapture.cpp:38-39 | The packets submitted to the decoder are exactly the packets read that belong to the selected stream. |
| FFmpegOracle.FirstVideoStream | Capture/VideoCapture.cpp:101-108 | The stream search yields the lowest index whose codec type is video. It yields -1 exactly when no stream is video. |
| FFmpegOracle.ListedNames | Capture/VideoCapture.cpp:64-84 | What the device listing contributes. A failed listing contributes nothing. A successful one lists the name of every non-null entry, every listed name comes from a non-null entry, and there are no more names than entries. |
| FFmpegOracle.NonNullNamesAppend | Capture/VideoCapture.cpp:76-83 | The names keep the order of the entries: the names of a listing split in two are the names of the first part followed by those of the second. |
| FFmpegOracle.OneEntryNames | Capture/VideoCapture.cpp:77-83 | A null entry contributes nothing, and a device entry contributes its name. |
| FFmpegOracle.Reached | Capture/VideoCapture.cpp:87-157 | The step at which openSingleDevice stops. It is `Opened` only for a known device that has a video stream. |
| FFmpegOracle.LastReachingIndex | Capture/VideoCapture.cpp:174-177 | Among the devices attempted in order, the last one that got past a given step, or -1. No later device got past that step. |
| Capture.Released | Capture/VideoCapture.hpp:19-40 | Each deleter frees at most one resource. It frees one exactly when its pointer is non-null, and that is the resource the handle owns. |
| Capture.OpenSingle | Capture/VideoCapture.cpp:87-157 | One attempt never takes back the allocation counter and only appends to the release log. When it returns true, all four handles hold resources acquired for this device and the stream index is a valid index. An unknown device, or one whose input does not open, leaves everything as it was. |
| Capture.OpenDecoding | Capture/VideoCapture.cpp:121-156 | The steps from avcodec_alloc_context3 on leave the format context, the stream index and the packets alone, and only append to the release log. On success the codec context, frame and scaler all belong to this device. |
| Capture.OpenSingleByStage | Capture/VideoCapture.cpp:87-157 | openSingleDevice returns true exactly when every step succeeds. The format context and its packets are replaced once avformat_open_input succeeds. The stream index is replaced once avformat_find_stream_info succeeds. The codec context is replaced once avcodec_open2 succeeds, the frame once av_frame_alloc does and the scaler once sws_getContext does. Each new handle belongs to this device and is freshly allocated. Every other handle is left as it was. |
| Capture.LateFailureMixesDevices | Capture/VideoCapture.cpp:94-137 | An attempt that fails after opening the input but no later than avcodec_open2 leaves a fresh format context of the new device next to the codec context, frame and scaler of an earlier device. The stream index is then stale (no stream info) or -1 (no video stream). |
| Capture.InstallKeepsConsistent | Capture/VideoCapture.cpp:94 | `unique_ptr::reset` with a freshly allocated resource keeps the ledger. The resource it replaces had not been freed before, so the deleter frees it for the first time. |
| Capture.OpenSingleKeepsConsistent | Capture/VideoCapture.cpp:87-157 | Whatever step one attempt stops at, the ledger still holds. This includes the temporary codec context freed on lines 129 and 135. |
| Capture.OpenAll | Capture/VideoCapture.cpp:174-177 | Attempting devices one after another never takes back the allocation counter and only appends to the release log. |
| Capture.OpenAllKeepsConsistent | Capture/VideoCapture.cpp:174-177 | Any sequence of attempts keeps the ledger. |
| Capture.OpenAllLeaves | Capture/VideoCapture.cpp:174-177 | After openDevice's loop, each handle comes from the last device that got past that handle's step, or is the handle held before when none did. The packets come from the last device whose input opened. The stream index comes from the last device whose stream info was found. |
| Capture.Candidates | Capture/VideoCapture.cpp:159-173 | openDevice attempts nothing without the v4l2 input format or with an empty name. For "all" it attempts the listed devices, otherwise the given name alone. |
| Capture.Teardown | Capture/VideoCapture.hpp:54-57 | The release log after destruction extends the log before it by at most four resources. It contains exactly the resources freed before and those the four handles own. |
| Capture.TeardownFreesEachOnce | Capture/VideoCapture.hpp:54-57 | Destroying the members in reverse declaration order frees every resource ever acquired, and each exactly once. |
| Capture.Resize | Capture/VideoCapture.cpp:48 | `vector::resize` gives the new length. It keeps the common prefix and zero-fills the rest. |
| Capture.GetAllDevicesAsWritten | Capture/VideoCapture.cpp:64-84 | getAllDevices as written completes exactly when the listing fails or is empty, and then its result agrees with the intended one. Any non-empty listing faults. |
| Capture.NullEntryListingFaults | Capture/VideoCapture.cpp:71-77 | A listing with a single null entry faults as written, although the intended result lists no device. |
| Capture.VideoCapture.constructor | Capture/VideoCapture.cpp:15-23 | The constructor stores the name and geometry, with defaults 640, 480 and 30. The default name "all" is given only on the definition at line 15, not on the declaration at VideoCapture.hpp:43, so code that sees only the header must pass a name. It then runs openDevice from a session that owns nothing. The resulting state is the attempts over the candidate devices, and the ledger holds. |
| Capture.VideoCapture.ReadFrame | Capture/VideoCapture.cpp:27-62 | A session that is not fully open returns false and consumes nothing. Otherwise readFrame returns true exactly when some packet yields a frame. It consumes the packets up to and including that one, or all of them. It submits those of the video stream and releases every packet it read. On success the output holds width·height·3 bytes, and the scaler was called with slice 0..height and stride width·3. On failure the output is unchanged. |
| Capture.VideoCapture.GetAllDevices | Capture/VideoCapture.cpp:64-84 | The corrected getAllDevices appends exactly the names of the non-null entries, in order. A failed listing appends nothing. |
| Capture.VideoCapture.FindVideoStream | Capture/VideoCapture.cpp:101-108 | The search loop yields exactly `FirstVideoStream` of the stream table. |
| Capture.VideoCapture.OpenSingleDevice | Capture/VideoCapture.cpp:87-119 | The fields after one call, and its result, are those of `OpenSingle` applied to the state before the call. |
| Capture.VideoCapture.OpenDecodingSteps | Capture/VideoCapture.cpp:121-156 | The codec context, frame and scaler steps change the fields and return the result as `OpenDecoding` describes. |
| Capture.VideoCapture.OpenDevice | Capture/VideoCapture.cpp:159-178 | openDevice attempts exactly the candidate devices, in order and all of them. Candidates are none without v4l2 or with an empty name, the listed devices for "all", otherwise the given name. The state afterwards is `OpenAll` of the state before, and the ledger holds. |
| Capture.VideoCapture.Destroy | Capture/VideoCapture.hpp:54-57 | The destructor nulls the four handles. It frees the frame, the scaler, the codec context and the format context in that order, each only when it is held. |
| Demo.Granted | Demo/DemoTest.cpp:13 | read_packet grants the smaller of the request and the bytes left. |
| Demo.BufferData.constructor | Demo/DemoTest.cpp:47-48 | The cursor starts at the mapped file's first byte with all of its bytes left. |
| Demo.BufferData.ReadPacket | Demo/DemoTest.cpp:10-23 | read_packet returns AVERROR_EOF when no byte is granted, and otherwise the number granted. It copies exactly the granted bytes at the cursor into the front of `buf` and leaves the rest of `buf` alone. It advances the cursor and shrinks the bytes left by the same amount. What was handed out is always the part of the file before the cursor. Once no bytes are left, every call returns AVERROR_EOF and changes nothing. |
| Demo.Served | Demo/DemoTest.cpp:10-23 | What successive read_packet calls hand out, in order, is never more than the bytes left or the total requested. |
| Demo.ServedIsPrefix | Demo/DemoTest.cpp:10-23 | Successive read_packet calls hand out a prefix of the buffer, in order. Its length is the total requested, capped at the bytes left. |
| Demo.ServedStopsAtEnd | Demo/DemoTest.cpp:13-15 | Once the calls have asked for at least the bytes left, they have handed out the whole buffer, and any later calls hand out nothing more. |
| Demo.FirstFailing | Demo/DemoTest.cpp:40-85 | The step at which TestAVIOReading jumps to `end:`. Every step before it succeeded, and it failed unless the run completed. |
| Demo.ResultCode | Demo/DemoTest.cpp:40-104 | TestAVIOReading reports an error exactly when one of its steps failed. A failed allocation reports ENOMEM. |
| Demo.HeldAtEnd | Demo/DemoTest.cpp:40-87 | At `end:` the pointers are nested: the AVIO context is held only with its buffer, and that buffer only after the file was mapped. The file is mapped exactly when av_file_map succeeded. A format context is held only when it was opened, over an AVIO context. |
| Demo.ReleaseBlockAsWritten | Demo/DemoTest.cpp:89-97 | The release block as written frees no resource twice and nothing that is not held. The one resource it leaves held is the AVIO buffer, exactly when the buffer was allocated but no AVIO context was. |
| Demo.AvioContextFailureLeaksBuffer | Demo/DemoTest.cpp:61-67 | When avio_alloc_context fails, the AVIO buffer is held at `end:`, but the release block as written never frees it. |
| Demo.ReleaseBlock | Demo/DemoTest.cpp:89-97 | The corrected release block frees no resource twice, and for nested pointers exactly the resources held. |
| Demo.TestAvioReading | Demo/DemoTest.cpp:27-105 | The steps run in order, and the first failure sets `ret` and jumps to `end:`. The method returns that code and reports an error exactly when it is negative. It releases what the corrected release block frees for the resources held there. |

## Left out

- Everything FFmpeg does inside its calls is out of scope: demuxing, decoding, device I/O, `avdevice_register_all`, `av_find_input_format`, `avcodec_find_decoder`, `av_dump_format` and `av_file_map`. The model takes each call's outcome as a parameter.
- Pixel data is left out: the model records the geometry of the `sws_scale` call, not the converted pixel values.
- Capture.VideoCapture.OpenDecodingSteps: the scaler handle does not record the target that `sws_getContext` is given (the codec's size and pixel format to `width_` x `height_` RGB24, lines 147-149). Only the `sws_scale` call geometry is recorded, by `ReadFrame`.
- Logging (`LOG_INFO`, `LOG_ERROR`) is left out.
- Allocation failures inside the `try` blocks are left out. `outRGB.resize` (line 48), `deviceNames.push_back` (lines 83 and 173) and the `std::string` copies can throw `std::bad_alloc`, which `CATCH_DEFAULT` catches. In readFrame (line 60) that returns false with the current packet never unreffed. In the constructor (line 22) it ends openDevice early.
- `fps_` is stored but never used by the source, and so is never used by the model either.
- `ByteTalk/Main.cpp` and `Demo/DemoTest.hpp` are not part of this model. They only call into the core.
- Capture.VideoCapture.constructor: requires a positive width and height whose frame size `width * height * 3` fits in an `int`. The source does not check this. There, an overflow would make `resize` and the stride wrap.
- Capture.VideoCapture.ReadFrame: an error from `av_read_frame` is treated the same as running out of packets. Both end the loop.
- Capture.VideoCapture.OpenSingleDevice: modelled as two methods, with the steps from `avcodec_alloc_context3` on moved into `OpenDecodingSteps`. This only keeps each proof small.
- Capture.VideoCapture.OpenSingleDevice: a resource's identity is the allocation counter. The model does not capture pointer values or address reuse.
- Capture.VideoCapture.OpenDevice: calls the corrected `GetAllDevices`, because the code as written faults on any non-empty listing (see Findings).
- Capture.VideoCapture.GetAllDevices: the `AVDeviceInfoList` from the listing is never freed in the source. The model leaves out that leak, since the list is not one of the session's owned resources.
- Demo.BufferData.ReadPacket: requires `0 <= bufSize <= buf.Length`. The AVIO layer always passes the size of its own buffer. A negative `buf_size` would pass through the mixed-signedness `FFMIN` unchecked.
- Demo.Served: the calls are made by FFmpeg, not by code in the core, so no loop over `BufferData.ReadPacket` is modelled. `Served` and `ReadPacket` agree by inspection, both being defined through `Granted`; no lemma ties successive `ReadPacket` calls to `Served`.
- Demo.TestAvioReading: the `read_packet` calls that `avformat_open_input` and `avformat_find_stream_info` make are not interleaved into the model. Their combined effect is `Demo.ServedIsPrefix`.
- Demo.TestAvioReading: uses the corrected `ReleaseBlock`, not the release block as written at lines 93-95, which leaks the AVIO buffer when `avio_alloc_context` fails (see Findings). The as-written block is `Demo.ReleaseBlockAsWritten`.
- Demo.TestAvioReading: `av_file_unmap` of a null mapping is treated as freeing nothing. `avformat_open_input` frees the context it was given when it fails, and the model assumes the same.
- Demo.TestAvioReading: the AVIO layer may replace `avio_ctx->buffer` with a buffer of its own. The model identifies the freed buffer with the one allocated.

## Findings

| source | as written | input that shows it | evidently intended | confidence | as-written member | corrected member |
|---|---|---|---|---|---|---|
| Capture/VideoCapture.cpp:71-77 | The loop reads entries through `deviceListPtr`, which was constructed holding `nullptr` instead of `device_list`. | Any successful listing with at least one entry, e.g. one null entry | Read `device_list->devices[i]` (and let the `unique_ptr` own `device_list`), appending the names of the non-null entries | high (not executed) | Capture.GetAllDevicesAsWritten, Capture.NullEntryListingFaults | Capture.VideoCapture.GetAllDevices |
| Demo/DemoTest.cpp:61-67, 93-95 | When `avio_alloc_context` fails, `avio_ctx` is null, so the release block never frees `avio_ctx_buffer` | `av_file_map` succeeds, `av_malloc` succeeds, `avio_alloc_context` returns NULL | Free `avio_ctx_buffer` directly when there is no AVIO context | high (not executed) | Demo.ReleaseBlockAsWritten, Demo.AvioContextFailureLeaksBuffer | Demo.ReleaseBlock |
