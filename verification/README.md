# Verified model of MiSTer MagiK's protocols and codecs

A Dafny 4.11 model of the parts of the MiSTer MagiK repository whose correctness rests on an
argument rather than on a table: the two-clock request transport of the scaler, the framebuffer
stream replica of the desktop application with its pixel conversion, release publication and
promotion, the particle cloud scheduler, the record CRC, PNG unfiltering with run-length encoding,
and the compact metadata container. `dafny verify dfyconfig.toml` checks all of it.

What is modelled, module by module:

* **RequestTransport** - the VHDL design that the formal scaler check embeds. Inputs are arbitrary
  sequences of resets and clock edges with free clock enables, schedules and accepts. `Tick` is the
  transition function, `Transport` the registers updated by the two processes. **RequestToken** - the
  same transport as one token that is handed over eight times.
* **Crc16** - the bit-serial CRC over registers of any width, and the word loops that compute it;
  **CrcDoubleErrors** - which pairs of flipped bits it misses; **CrcByWords** - the same CRC by whole
  words.
* **RowOffsets**, **Surfaces** - rows of a strided buffer, and rectangles copied into it.
* **PixelConversion** - RGB565 to RGBA: one pixel, blocks of sixteen, vector lanes, whole frames.
* **FramebufferStream** - headers, rectangle copy and the state object; **StreamReplica** - what a
  viewer sees over whole runs, with the receive loop; **StreamCalls** - when a call returns, fails or
  goes on; **FramePixels** - frames pixel by pixel.
* **Releases**, **ReleaseState**, **Publication**, **ReleaseSafety**, **PublicationRuns** - the
  release host as a state object with a budget of API calls (a run is cut when the budget is used
  up), the publication run, what holds over every history of finished, refused and cut runs, and
  series of runs as they are carried out; **PublishedState** - what a run asks for and leaves, asset
  by asset.
* **PackagePaths**, **AssetUrl**, **CandidateFiles**, **Distribution**, **DownloaderDb**,
  **ReceiptWriting**, **Promotion** - the candidate directory: path rules, asset URLs, the checksum
  list, the acceptance gate, the feed generator, the first validation, and promotion.
* **PathForms**, **UrlForms**, **SpelledOut** - paths, URLs and names as plain text;
  **AcceptedCandidate**, **PreparedCandidate** - what the gate accepts and what a promotion asks for
  and writes, file by file.
* **PublishableCandidate**, **CandidateBytes** - an accepted directory as the candidate that
  publication starts from, and the contents that publication compares as the bytes in such
  directories; **PromotionChain** - the way of a candidate through all channels.
* **Interleave**, **Morton**, **Sorting**, **ParticleCloud** - the proportional merge, the
  progressive order, and the sampler and encoder around them; **MortonBits**, **SampledCloud** - the
  order bit by bit, and the sampler in numbers.
* **PngFilter**, **PixelRuns** - the five PNG filters and the run-length file body.
* **CompactMetadata** - the container check; **MetadataBuilder** - the writer of such containers on
  the Rust side, as an object; **BuiltMetadata** - the gate reading what the writer wrote;
  **MetadataBytes** - the check byte by byte. **Bytes**, **Options**, **Sets** hold shared types and
  facts.

Main results, hardest first: the transport never loses or duplicates a request, in any
interleaving, shows the events of a machine of one token, issues what is scheduled and acknowledges
it, for ever; a viewer only ever sees surfaces its producer really had, and a call fails only for a
cause; publication can be cut after any API call and resumed, whether it
would succeed or be refused, never overwrites an immutable asset, and every live feed is backed by
its tag; the distribution gate accepts exactly the directories described file by file; promotion
succeeds exactly under a checkable condition, keeps the verdict, and leads through all channels
exactly when its timestamps agree; the metadata gate accepts exactly a described part of what the
metadata builder writes; the scheduler stays within one point of proportional; bursts of up to 16 bits are always detected, and two flipped bits unless they are a
multiple of 32767 apart.

Where code and documentation differ, or the code does something a reader may not expect, the model
follows the code:

* That a refused run changes nothing is false of the code: an alpha run that finds the version's Git
  tag at another revision, but no release for it, creates an empty release for that tag before it
  refuses (`scripts/magik_ci/publication.py:256-263`). `PublicationRuns.SampleStrayRelease` is such a
  run, and `GitHub.Publish` says that this is the only exception: a refused run leaves the remote
  unchanged exactly unless it is allowed and `ReleaseState.Strays` holds.
* A release promotion generates the beta feed again, and publication then compares it with the live
  one. It can therefore be published exactly when it was prepared with the timestamp of the beta
  promotion (`scripts/magik_ci/publication.py:204-213`, `248-253`;
  `PromotionChain.ReleasableAtSameTime`). The distribution workflow passes the time of the commit
  both times (`.github/workflows/distribution.yml:80`).
* The metadata builder takes ids with zero bytes in them, which the gate reads shorter or refuses, and
  shards without content, which the gate refuses (`crates/catalog/src/runtime_metadata.rs:683-690`,
  `1357-1382`; `BuiltMetadata.GateAcceptsBuilt` says exactly what is accepted).
* `validate_path(".")` fails with an index error rather than with its own message
  (`scripts/magik_ci/downloader_db.py:25-32`); both count as a refusal here.
* The stream results assume no order of arrival at all. A delta at the largest
  sequence number may be applied twice, because the counter saturates
  (`apps/desktop/src/device_client.rs:585`); that is harmless because redrawing is idempotent.
* An unknown PNG filter is noticed only when a row has bytes, so images of width zero decode with any
  filter bytes (`scripts/media/png-to-slint-rgba.py:71-86`).
* `rgb565_frame_to_rgba` asks for `stride * height` bytes although the padding of the last row is
  never read (`apps/desktop/src/device_client.rs:1153-1161`).

Lemmas carry `{:induction false}`: every induction is written out.

## Model

| member | source | states |
|---|---|---|
| RequestTransport.OneTokenInFlight | scripts/checks/check-fpga-scaler-request-formal.py:103-137 | In every reachable state, under any clock steps, schedules, accepts and resets, `waiting` holds exactly when one token sits in exactly one of the eight stages; otherwise the seven toggle registers agree and no stage is occupied; pulse and pending are never both set |
| RequestTransport.TickKeepsConsistent | scripts/checks/check-fpga-scaler-request-formal.py:103-137 | The one-step invariant behind it, including how far each domain may be out of reset: an output domain in reset forces both domains clear, an Avalon domain in reset forces itself and the returning synchronisers clear |
| RequestTransport.ReachedIsConsistent | scripts/checks/check-fpga-scaler-request-formal.py:103-137 | The invariant holds after every input sequence from power-on |
| RequestTransport.AtMostOneEvent | scripts/checks/check-fpga-scaler-request-formal.py:110-113 | One instant produces at most one of the four events, and only the one the position of the token calls for |
| RequestTransport.EventsFollowPhase | scripts/checks/check-fpga-scaler-request-formal.py:110-137 | Each event fires only from its own phase and moves the token to the next one; without an event the phase stays |
| RequestTransport.TraceFollowsCycle | scripts/checks/check-fpga-scaler-request-formal.py:103-137 | Over every run since the last reset the event trace is a prefix of issue, receive, accept, ack repeated, and its length modulo four is the phase |
| RequestTransport.CountInCycle | scripts/checks/check-fpga-scaler-request-formal.py:110-113 | How often each event occurs in a trace that follows the cycle |
| RequestTransport.Conservation | scripts/checks/check-fpga-scaler-request-formal.py:103-140 | issued = received + requests crossing, received = accepted + pending, accepted = acknowledged + acknowledgements crossing, over every run |
| RequestTransport.RankFalls | scripts/checks/check-fpga-scaler-request-formal.py:64-82 | A rank of at most nine that never rises without a reset, falls by exactly one on each instant that moves the token (for `pending` only with accept_ready), and the request stops waiting exactly when the acknowledgement fires |
| RequestTransport.FairRoundsAcknowledge | scripts/checks/check-fpga-scaler-request-formal.py:103-137 | A waiting request is acknowledged within as many fair rounds as its rank |
| RequestTransport.EveryRequestIsAcknowledged | scripts/checks/check-fpga-scaler-request-formal.py:103-137 | From every reachable state with a request waiting, nine rounds in which both clocks step (the Avalon clock once with accept_ready) bring the acknowledgement, whatever else the inputs do |
| RequestTransport.Transport.AssertReset | scripts/checks/check-fpga-scaler-request-formal.py:103-118 | The reset input clears both domains at once, whatever state they are in |
| RequestTransport.Transport.OutputProcess | scripts/checks/check-fpga-scaler-request-formal.py:114-125 | The output-domain process on its registers: right-hand sides read old values, and exactly the specified next registers result |
| RequestTransport.Transport.AvalonProcess | scripts/checks/check-fpga-scaler-request-formal.py:126-137 | The Avalon-domain process, where clearing `pending` is written after setting it |
| RequestTransport.Transport.RisingEdge | scripts/checks/check-fpga-scaler-request-formal.py:103-137 | One clock edge of the whole design equals one step of the transition function, each domain leaving reset at its own step |
| RequestToken.RunRefinesToken | scripts/checks/check-fpga-scaler-request-formal.py:103-137 | Over every run from power-on, the thirteen registers show the same events as a machine of one token with eight handovers: a live output domain takes a scheduled request when none is in flight, each handover happens at a step of the domain whose turn it is (for pending with accept_ready), and each domain spends its first step leaving reset |
| RequestToken.SameMove | scripts/checks/check-fpga-scaler-request-formal.py:103-137 | One instant of both processes moves the token as the simpler machine does, whatever steps and resets happen |
| RequestToken.ScheduleIsIssued | scripts/checks/check-fpga-scaler-request-formal.py:106-121 | From every reachable quiet state, two output steps with a schedule issue exactly one request, also when the first of them only leaves reset |
| RequestToken.AcksKeepComing | scripts/checks/check-fpga-scaler-request-formal.py:103-137 | While the schedule is held, every eleven fair rounds bring at least one more acknowledgement, from every reachable state |
| Crc16.CrcWord | scripts/checks/generate-video-diagnostics-protocol.py:31-40 | The byte-wise, bit-serial update of the register by one word equals feeding its sixteen bits, for any polynomial |
| Crc16.Crc16CcittFalse | scripts/checks/check-latch-protocol.py:24-35 | The nested loops over words, bytes and bits compute the CRC of the bit string of the record, of any length |
| Crc16.HdmiEvidenceHeaderCrc | scripts/checks/generate-video-diagnostics-protocol.py:284-289 | For every record body, continuing from the precomputed header CRC (and from the schema CRC) gives the CRC of the full record |
| Crc16.ContinueFromPrefix | scripts/checks/generate-video-diagnostics-protocol.py:216-221 | Continuing from the CRC of a prefix gives the CRC of the concatenation |
| Crc16.OwnCrcLeavesZero | scripts/checks/check-latch-protocol.py:24-35 | A record followed by its own CRC drives the register to zero |
| Crc16.FeedAllXor | scripts/checks/check-latch-protocol.py:24-35 | The register update is linear: the CRC of a difference is the difference of the CRCs |
| Crc16.XorInThenShift | scripts/checks/check-latch-protocol.py:27-34 | Xoring a byte in and then shifting equals feeding its bits one by one, the step between the code and the polynomial view |
| Crc16.StepsInjective | scripts/checks/check-latch-protocol.py:29-34 | With a polynomial whose constant term is set, shifting never loses information |
| Crc16.FeedAllInjective | scripts/checks/check-latch-protocol.py:24-35 | Different register values stay different under any common continuation |
| Crc16.BurstDetected | scripts/checks/check-latch-protocol.py:24-35 | Messages that differ only inside one window as wide as the register have different CRCs, for any register width and any offset |
| Crc16.RecordBurstDetected | scripts/checks/check-latch-protocol.py:24-35 | Two different records of equal length that differ only inside 16 consecutive bits have different CRC-16 values, at any offset and any length |
| Crc16.RecordOddErrorsDetected | scripts/checks/check-latch-protocol.py:24-35 | Records that differ in an odd number of bits have different CRC-16 values |
| CrcDoubleErrors.RecordDoubleErrors | scripts/checks/check-latch-protocol.py:24-35 | Records of equal length that differ in exactly two bits have the same CRC-16 exactly when the bits are a multiple of 32767 apart |
| CrcDoubleErrors.RecordDoubleErrorsDetected | scripts/checks/check-latch-protocol.py:24-35 | In records of at most 32767 bits, any two flipped bits change the CRC-16 |
| CrcDoubleErrors.PeriodsExactly | scripts/checks/check-latch-protocol.py:29-34 | The powers of x modulo the polynomial repeat after exactly 32767 steps |
| CrcDoubleErrors.PowersMultiply | scripts/checks/check-latch-protocol.py:29-34 | Shifting a register is multiplication by x: the product of two powers is the power of the sum of their exponents |
| CrcByWords.CrcOfWords | scripts/checks/check-latch-protocol.py:24-35 | The CRC of a record, from any start value, is also the one of a loop over whole words: xor the word in and shift sixteen times, a one that falls out bringing in 0x1021 |
| CrcByWords.FalseCrc | scripts/checks/check-latch-protocol.py:24-35 | What the function returns is the value of that loop started at 0xFFFF, and no other value |
| CrcByWords.KnownWord | scripts/checks/check-latch-protocol.py:24-35 | The CRC of the one-word record 0x3132 is 0x3DBA |
| CrcByWords.MessageBits | scripts/checks/check-latch-protocol.py:26-27 | The message bits of a record are those of its words in order |
| Crc16.MessageInjective | scripts/checks/check-latch-protocol.py:26-27 | Records of equal length with the same bits are the same record |
| CompactMetadata.VerifyCompactMetadata | scripts/magik_ci/databases.py:293-350 | The check accepts exactly the well-formed containers (header, entries, strictly increasing ids, every pair of shards disjoint), and reports an overlap exactly when everything else is in order; any other refusal names the first check that fails, of the header or else of the first entry out of order |
| CompactMetadata.CheckHeader | scripts/magik_ci/databases.py:295-314 | The header checks accept exactly good headers; reading the index is only reached inside the file; a refusal names the first check that fails |
| CompactMetadata.CheckEntry | scripts/magik_ci/databases.py:318-347 | One entry after the id before it is accepted exactly when its id, kind, reserved bytes, lengths and range are in order; a refusal names the first check that fails |
| CompactMetadata.CheckEntries | scripts/magik_ci/databases.py:315-347 | The loop over entries accepts exactly when all entries are good and ids increase, and collects their ranges in order; a refusal is that of the first entry out of order |
| CompactMetadata.AnyOverlap | scripts/magik_ci/databases.py:348-350 | Sorting and comparing neighbours finds an overlap exactly when some pair of ranges, not only neighbours, overlaps |
| CompactMetadata.SortedNeighboursSuffice | scripts/magik_ci/databases.py:348-350 | Non-empty ranges are pairwise disjoint exactly when sorted neighbours do not overlap |
| CompactMetadata.AscendingSnoc | scripts/magik_ci/databases.py:327-329 | Comparing each id with the one before is enough for strict order of all |
| CompactMetadata.ShardsFit | scripts/magik_ci/databases.py:345-350 | The shard lengths of an accepted container sum to at most the space behind the index |
| CompactMetadata.ShardsNonEmpty | scripts/magik_ci/databases.py:338-346 | Every accepted shard is non-empty and lies between the index end and the file end |
| MetadataBytes.HeaderExactly | scripts/magik_ci/databases.py:295-314 | A header is in order exactly when its bytes are the encoding of version 1, the file length, the count, 96, 128 and 128 times the count at their places, zeros in the reserved bytes and the digest of the index |
| MetadataBytes.EntryExactly | scripts/magik_ci/databases.py:318-347 | An entry is in order exactly when its bytes are a padded ASCII id of 1 to 32 characters, a kind of 0 or 1, zeros in the reserved bytes, and an offset and two lengths of 1 byte to 16 MiB that lie behind the index and inside the file |
| MetadataBuilder.MetadataFileBuilder.AddPayload | crates/catalog/src/runtime_metadata.rs:1357-1382 | A shard is added exactly when its id and counts are possible and its id is new |
| MetadataBuilder.MetadataFileBuilder.Encode | crates/catalog/src/runtime_metadata.rs:1384-1435 | The container of the shards in the order of their ids: header, one row for each shard with the place of its compressed bytes, and these bytes; refused exactly when one is over 16 MiB compressed |
| BuiltMetadata.GateAcceptsBuilt | scripts/magik_ci/databases.py:293-350 | Of what the builder encodes, the gate accepts exactly the containers of at most 8 MiB whose ids have no zero byte but at their ends and differ without them, and whose shards are not empty and at most 16 MiB long |
| BuiltMetadata.ShardsReadBack | scripts/magik_ci/databases.py:315-347 | From a built container the gate reads the rows that were written, and from each the id and the place of its shard |
| BuiltMetadata.PayloadThere | crates/catalog/src/runtime_metadata.rs:1391-1416 | At the place in a row are the compressed bytes of its shard |
| BuiltMetadata.FieldOrder | crates/catalog/src/runtime_metadata.rs:1385-1385 | The builder sorts padded fields, the gate compares stripped ids; the two orders agree |
| Sorting.SortSorts | scripts/magik_ci/databases.py:348-348 | The stable sort used by the container check and the point groups puts the elements in order |
| Sorting.Sort | scripts/lib/particle_model.py:727-728 | Sorting permutes: the result has every member as often as the input |
| Sorting.SortStable | scripts/lib/particle_model.py:727-728 | Sorting is stable: members that rank the same keep their order |
| Interleave.Select | scripts/lib/particle_model.py:734-742 | The choice among the groups that still have points: the furthest behind, the first of them on a tie, none when all are used up |
| Interleave.GreedyKeepsNear | scripts/lib/particle_model.py:733-744 | The furthest-behind group still has points, and taking one keeps every deficit between -2/3 and 5/6 of a point |
| Interleave.AvailabilityIsFree | scripts/lib/particle_model.py:734-742 | Restricting the choice to available groups never changes it |
| Interleave.Interleave | scripts/lib/particle_model.py:730-746 | Succeeds exactly when the groups hold `count` points; the result is then an order-preserving merge of all of them, each choice furthest behind among all groups, and every prefix within its band |
| Interleave.WithinOnePoint | scripts/lib/particle_model.py:713-715 | After any prefix no group is a whole point away from its exact share |
| SampledCloud.ChoiceExactly | scripts/lib/particle_model.py:733-744 | Output k comes from the group that is furthest behind its share of k + 1 outputs, the first of them if there are several |
| Morton.MortonCode | scripts/lib/particle_model.py:720-723 | The two bit loops compute the interleaved code |
| Morton.CodeInjective | scripts/lib/particle_model.py:720-723 | No two cells of the grid share a code |
| Morton.KeyIsReversedCode | scripts/lib/particle_model.py:724-724 | Reversing the bits of the code turns the lowest coordinate bits into the leading base-8 digit |
| Morton.CoarseExactlyBelow | scripts/lib/particle_model.py:713-725 | The reversed code is below 8^j exactly when every coordinate is a multiple of 2^(w-j), for any width w |
| MortonBits.CodeBits | scripts/lib/particle_model.py:720-723 | Place 3 * bit + axis of the code holds bit `bit` of coordinate `axis` |
| MortonBits.ReverseBits | scripts/lib/particle_model.py:724-724 | Reversal moves every bit to the place counted from the other end |
| ParticleCloud.AppendUnique | scripts/lib/particle_model.py:631-649 | Collects, in order, exactly the points drawn whose quantized place is new; it gives up exactly when a point at or beyond the attempt limit has to be skipped while the group is not full |
| SampledCloud.KeptExactly | scripts/lib/particle_model.py:631-649 | A group grows by exactly the draws whose place was neither seen before nor drawn earlier, in the order they are drawn |
| SampledCloud.GivesUpExactly | scripts/lib/particle_model.py:634-646 | A source gives up exactly when a draw without a free place is the ten-thousandth or later, and at least the hundredth for each point asked for, while points are missing |
| SampledCloud.SharesInNumbers | scripts/lib/particle_model.py:606-608 | A fifth of the points go to feature edges and 8 in 100 to seams where there are any, each to the nearest point, the others to the surface |
| SampledCloud.QuantizedExactly | scripts/lib/particle_model.py:638-640 | Every coordinate is written as the nearest multiple of 1/32767 between -1 and 1, halves to the even one |
| SampledCloud.CellExactly | scripts/lib/particle_model.py:717-719 | The grid spreads -1 to 1 over the cells 0 to 1023, to the nearest, halves to the even one |
| SampledCloud.GroupInOrder | scripts/lib/particle_model.py:725-728 | A group is sorted by reversed code, code, palette and flags as tuples are compared |
| ParticleCloud.CoarseFirst | scripts/lib/particle_model.py:713-728 | A sorted group lists every point of a coarse lattice before any finer one |
| ParticleCloud.MergedCoarseFirst | scripts/lib/particle_model.py:713-744 | In the merged output, too, each group shows its coarse points first |
| ParticleCloud.MergeIsApart | scripts/lib/particle_model.py:730-746 | Merging groups that are apart keeps all points apart |
| ParticleCloud.SamplePoints | scripts/lib/particle_model.py:604-746 | The sampling stage returns a proportional merge of three progressive groups of the planned sizes, each drawn from its own source and away from those drawn before it, without duplicate places; it gives up exactly when one of the sources does, and comes out short exactly in the case of missing feature edges |
| ParticleCloud.EncodeAccepts | scripts/lib/particle_model.py:749-763 | The encoder accepts exactly the non-empty clouds whose points are apart (an empty cloud has no bounds) |
| ParticleCloud.CompileModel | scripts/lib/particle_model.py:774-795 | The encoder accepts every cloud the sampler returns, unless no points were asked for |
| PngFilter.Paeth | scripts/media/png-to-slint-rgba.py:15-24 | The predictor is the neighbour nearest to a + b - c, preferring a, then b |
| PngFilter.UnfilterRow | scripts/media/png-to-slint-rgba.py:66-87 | In-place unfiltering returns the row whose filtered form was read; an unknown filter is noticed only when there is a byte to undo |
| PngFilter.Unfilter | scripts/media/png-to-slint-rgba.py:57-89 | Decoding succeeds exactly when the length is right and the filters are known, and the stream encodes what is returned |
| PngFilter.FilterExactly | scripts/media/png-to-slint-rgba.py:71-86 | A row filtered with type 0, 1, 2, 3 or 4 is one from which adding nothing, left, up, their average or the Paeth neighbour modulo 256 gives back every byte |
| PngFilter.DecodedByte | scripts/media/png-to-slint-rgba.py:63-86 | Every byte of a decoded image is the formula of its row's filter number applied to the byte sent for it, the pixel to its left and the row above, with zeros outside the image |
| PngFilter.KnownFilters | scripts/media/png-to-slint-rgba.py:75-86 | Exactly the filter bytes 0 to 4 are known |
| PngFilter.FilterInjective | scripts/media/png-to-slint-rgba.py:71-86 | Filtering with any type and any row above loses nothing |
| PngFilter.EncodedImageUnique | scripts/media/png-to-slint-rgba.py:63-89 | A stream encodes at most one image |
| PngFilter.RoundTrip | scripts/media/png-to-slint-rgba.py:63-89 | For images of any size and any choice of filters for each row (section 6 of RFC 2083), decoding the encoded stream gives the image back |
| PixelRuns.NextRun | scripts/media/png-to-slint-rgba.py:104-115 | The inner loop finds the longest run at a position, up to 65535 pixels |
| PixelRuns.EncodeRuns | scripts/media/png-to-slint-rgba.py:102-118 | The run list expands to the exact pixels, counts are 1 to 65535, equal neighbours follow only a full run, and the output is at most 3/2 of the input |
| PixelRuns.CanonicalIsUnique | scripts/media/png-to-slint-rgba.py:103-118 | Two canonical run lists for the same pixels are equal, so the output is determined by the pixels |
| PixelRuns.UnpackPack | scripts/media/png-to-slint-rgba.py:116-117 | A reader of the packed runs gets back exactly the runs written |
| PixelRuns.PackedLayout | scripts/media/png-to-slint-rgba.py:116-117 | Each run is six bytes: its count, low byte first, and its pixel |
| PixelConversion.MatchesReference | apps/desktop/src/device_client.rs:1530-1540 | The bit form of the colour conversion equals the quotient-and-remainder form of the reference, for every pixel value |
| PixelConversion.RgbaInjective | apps/desktop/src/device_client.rs:1246-1257 | Two different RGB565 values never give the same RGBA colour |
| PixelConversion.LanesHoldColour | apps/desktop/src/device_client.rs:1223-1227 | The red-green and blue-alpha lanes of a pixel hold the four bytes of its colour |
| PixelConversion.InterleavedLanes | apps/desktop/src/device_client.rs:1214-1231 | Interleaving the lanes and storing them little-endian gives the colours of the pixels in order, for any number of lanes |
| PixelConversion.Rgb565BlockScalar | apps/desktop/src/device_client.rs:1233-1244 | The scalar block is the per-pixel form |
| PixelConversion.Rgb565BlockSimd | apps/desktop/src/device_client.rs:1214-1231 | The vector block is the per-pixel form |
| PixelConversion.AppendFrameWith | apps/desktop/src/device_client.rs:1189-1207 | The blocked traversal, with either block converter, appends exactly the image of the frame |
| PixelConversion.AppendFrame | apps/desktop/src/device_client.rs:1172-1186 | The dispatch between vector and scalar form does not change the image |
| PixelConversion.ImageLayout | apps/desktop/src/device_client.rs:1197-1206 | The image has width*height*4 bytes and pixel (x, y) expanded at offset 4*(y*width+x) |
| PixelConversion.PaddingUnread | apps/desktop/src/device_client.rs:1198-1198 | Row padding and trailing bytes never reach the image |
| PixelConversion.Rgb565FrameToRgba | apps/desktop/src/device_client.rs:1133-1170 | Conversion succeeds exactly for the acceptable frames (no overflow, stride wide enough, buffer long enough, memory available) and then returns the image |
| FramebufferStream.ValidShape | crates/framebuffer-stream/src/lib.rs:130-180 | The checked arithmetic accepts exactly the headers that describe a non-empty rectangle of a surface of at most 16 MiB, with its raw size, full for keyframes |
| FramebufferStream.ApplyRow | apps/desktop/src/device_client.rs:683-699 | One row of the rectangle is written exactly when it lies inside the buffer |
| FramebufferStream.ApplyRgb565Rect | apps/desktop/src/device_client.rs:653-701 | The rectangle copy succeeds exactly for rectangles inside the buffer with the right number of bytes; otherwise exactly the rows before the first that does not fit are written |
| FramebufferStream.CopyCannotFail | apps/desktop/src/device_client.rs:553-583 | After shape validation the rectangle copy cannot fail, so no half-drawn or half-reset state is reached |
| FramebufferStream.SurfaceConverts | apps/desktop/src/device_client.rs:587-598 | A complete surface always converts, as long as the image can be allocated |
| FramebufferStream.ApplyKeepsValid | apps/desktop/src/device_client.rs:534-651 | Not awaiting a keyframe implies geometry and expected sequence are set, and the buffer always has stride*height*2 bytes of the stored geometry |
| FramebufferStream.UnshownFrameKeepsPixels | apps/desktop/src/device_client.rs:541-586 | Frames that are ignored, or refused before the copy, change no pixel; the only other refusal is a missing image allocation after a complete drawing |
| FramebufferStream.FramebufferStreamState.constructor | apps/desktop/src/device_client.rs:202-211 | The default state: empty buffer, nothing expected, awaiting a keyframe |
| FramebufferStream.FramebufferStreamState.ResetBuffer | apps/desktop/src/device_client.rs:633-650 | A zeroed buffer of the new size, or an unchanged state |
| FramebufferStream.FramebufferStreamState.ApplyFrame | apps/desktop/src/device_client.rs:534-631 | State and outcome after one frame are those of the transition function, on every branch |
| FramePixels.ShownPixels | apps/desktop/src/device_client.rs:541-631 | When a frame is shown, every pixel of the buffer inside the rectangle is the one sent for it and outside the one that was there, and the image has the colour of every pixel of the buffer at its place |
| FramePixels.ShapeInNumbers | crates/framebuffer-stream/src/lib.rs:130-180 | The shape check in unbounded arithmetic: a rectangle of at least one pixel inside a surface of at most 16777216 bytes, two bytes for each of its pixels, and for a keyframe the whole surface |
| Surfaces.PatchedShows | apps/desktop/src/device_client.rs:683-699 | Row by row, copying a rectangle changes the visible rows inside it and no other |
| Surfaces.PatchedDisplays | apps/desktop/src/device_client.rs:683-699 | The buffer after the copy shows the picture with the rectangle redrawn |
| Surfaces.FullRedraw | apps/desktop/src/device_client.rs:580-583 | A full rectangle replaces whatever the buffer showed |
| Surfaces.RedrawnTwice | apps/desktop/src/device_client.rs:583-585 | Redrawing the same rectangle again changes nothing, which makes the saturated sequence counter harmless |
| FramePixels.DeltaInPixels | apps/desktop/src/device_client.rs:583-585 | What a producer is assumed to send with a delta, pixel by pixel: inside the rectangle the new surface, outside it no change |
| FramePixels.KeyframeInPixels | apps/desktop/src/device_client.rs:580-583 | What a producer is assumed to send with a keyframe: every pixel of its surface, row by row |
| StreamReplica.FrameKeepsTrack | apps/desktop/src/device_client.rs:534-631 | Whatever frame of a producer arrives, in whatever order, the replica goes on showing one of its surfaces or waits, and a returned frame is the producer's surface at that sequence number |
| StreamReplica.ShownExactly | apps/desktop/src/device_client.rs:541-631 | Exactly the usable keyframes, and the usable deltas that continue what is shown, are shown |
| StreamReplica.NothingIsSkipped | apps/desktop/src/device_client.rs:556-586 | From any state, a usable keyframe and everything that follows it without a gap is shown |
| StreamReplica.RunIsFaithful | apps/desktop/src/device_client.rs:448-493 | Over any run with loss, repetition, reordering, geometry changes and reconnects, every frame returned is pixel for pixel the surface of the current producer at its sequence number |
| StreamReplica.NextIsFaithful | apps/desktop/src/device_client.rs:448-493 | Each call of next_frame returns a faithful frame and leaves a state from which further calls do |
| StreamReplica.Viewer.NextFrame | apps/desktop/src/device_client.rs:448-493 | The receive loop, reconnects included, computes the first event that is not ignored and the state after it |
| StreamCalls.OutcomeExactly | apps/desktop/src/device_client.rs:541-631 | A frame is passed over exactly when it is a well-formed delta that does not continue what is shown, and then a keyframe is awaited; it is an error exactly when it is malformed or would be shown but is not usable; a frame that is returned has the fields of its header, and its successor is expected next |
| StreamCalls.FailsOnlyForCause | apps/desktop/src/device_client.rs:448-493 | A call over successful reconnects, heartbeats and usable frames never fails |
| StreamCalls.FatalEndsTheCall | apps/desktop/src/device_client.rs:448-493 | The first failed reconnect, end, error, greeting or malformed frame that a call reaches ends it with an error, changes nothing, and leaves what follows |
| StreamCalls.HeartbeatsChangeNothing | apps/desktop/src/device_client.rs:474-474 | Removing all heartbeats changes neither what a call returns nor the state after it |
| StreamCalls.ReturnsTheLastTaken | apps/desktop/src/device_client.rs:448-493 | A frame that is returned is the last event taken and everything before it was passed over; a call that takes everything without an outcome passed over all of it |
| StreamCalls.FirstReturnedIsKeyframe | apps/desktop/src/device_client.rs:551-555 | While a keyframe is awaited, the first frame returned is one |
| StreamCalls.KeyframeBringsAFrame | apps/desktop/src/device_client.rs:448-493 | A call that meets nothing wrong returns a frame if there is a keyframe among the events |
| Publication.GitHub.UploadOne | scripts/magik_ci/publication.py:94-105 | One asset becomes whole, stays as it was, or (when it may be replaced) is absent between deletion and upload |
| Publication.GitHub.Upload | scripts/magik_ci/publication.py:81-105 | Immutable assets are never replaced: an existing name refuses the upload, and replacement is accepted for channel feed and installer files only |
| Publication.GitHub.VerifyRemote | scripts/magik_ci/publication.py:229-237 | Read-back succeeds exactly when every named asset is there with the candidate's bytes |
| Publication.GitHub.UpdateFeed | scripts/magik_ci/publication.py:144-188 | The feeds of a run change together in one step or not at all, and the read-back agrees |
| Publication.GitHub.PublishVersion | scripts/magik_ci/publication.py:255-268 | The alpha branch completes the version's release without overwriting anything, or refuses exactly when the release was not ready; refused, it leaves everything as it was, but for an empty release exactly when the tag was at another revision without one |
| Publication.GitHub.CheckVersion | scripts/magik_ci/publication.py:269-275 | The promotion branch accepts the version's release only when it is at the revision and holds the core assets byte for byte |
| Publication.GitHub.PublishTarget | scripts/magik_ci/publication.py:278-290 | A channel's release reaches the entry that the final state has for it, or a step on the way that keeps readiness and final state |
| Publication.GitHub.Publish | scripts/magik_ci/publication.py:240-300 | A run succeeds exactly from ready states and then leaves the final state; a refused run leaves the remote unchanged exactly unless it is an allowed alpha run for a tag at another revision without a release, which gains an empty one; a run cut anywhere, from a ready state or not, keeps the readiness and the state that an uninterrupted run would end in; a run needs at most 40 + 2 * files calls; and every run has only the allowed effect |
| ReleaseState.SameFinal | scripts/magik_ci/publication.py:259-289 | A change to a needed tag that comes to the same final entry comes to the same final state altogether |
| ReleaseState.CreateStep | scripts/magik_ci/publication.py:259-261 | Creating a missing release keeps what is published, the readiness and the final state |
| ReleaseState.UploadStep | scripts/magik_ci/publication.py:267-287 | Every intermediate state of an upload of the candidate's files keeps what is published, the readiness and the final state |
| ReleaseState.PresentStep | scripts/magik_ci/publication.py:289-292 | Setting title and prerelease flag keeps what is published, the readiness and the final state |
| ReleaseState.SwitchIsFinal | scripts/magik_ci/publication.py:291-294 | Switching the feeds is the last step: it reaches the final state, from which a further run changes nothing |
| PublishedState.PublishedExactly | scripts/magik_ci/publication.py:255-294 | What a finished publication leaves, name by name: channel releases with database, zip and (but for alpha) installer of the candidate, other assets kept, presented as prerelease or not; the version tag at the revision with exactly the candidate after an alpha run and unchanged assets after a promotion; the feeds of exactly the channels published to; every other tag untouched |
| PublishedState.ReadyExactly | scripts/magik_ci/publication.py:245-275 | A publication is possible exactly for an accepted candidate of this repository and this 40-digit commit, with the candidate's alpha feed live for beta and its beta feed for release, and the version tag absent or holding a part of the candidate (alpha), or holding its assets, receipt and evidence (promotion) |
| ReleaseSafety.Resumable | scripts/magik_ci/publication.py:240-294 | However often runs are cut, the run that finishes for the same candidate ends, accepted or refused, in the state of an uninterrupted run; cuts do not change whether the candidate can be published |
| ReleaseSafety.NextReady | scripts/magik_ci/publication.py:248-275 | After a publication, the same payload can be promoted to the next channel exactly when it carries the very feed that was published |
| ReleaseSafety.PublishedOnce | scripts/magik_ci/publication.py:240-294 | Publishing a published candidate again is possible and changes nothing |
| ReleaseSafety.EffectKeepsSafe | scripts/magik_ci/publication.py:240-294 | No run breaks the promise of a feed: its version tag exists at the validated revision and holds every installed asset byte for byte |
| ReleaseSafety.HistoryIsSafe | scripts/magik_ci/publication.py:240-294 | That promise holds in every state of every history of runs |
| ReleaseSafety.NothingIsLost | scripts/magik_ci/publication.py:84-105 | Whatever is under a version tag once stays there unchanged for ever |
| ReleaseSafety.PromotedInOrder | scripts/magik_ci/publication.py:248-253 | A version in the beta feed was in the alpha feed before, one in the release feed in the beta feed before |
| ReleaseSafety.ReleasedThroughAll | scripts/magik_ci/publication.py:248-253 | A version in the release feed went through alpha and beta first |
| PublicationRuns.RunAll | scripts/magik_ci/publication.py:240-300 | Any sequence of publications with any budgets is a history, so its feeds are backed and nothing published is lost; each run ends as its outcome says |
| PublicationRuns.RunUntilDone | scripts/magik_ci/publication.py:240-300 | Repeating a publication while it is cut ends, as soon as one attempt may make enough calls, where one uninterrupted run would have ended, and succeeds exactly from a ready state |
| PublicationRuns.StrayRelease | scripts/magik_ci/publication.py:256-263 | The exception to a refusal without effect: every allowed alpha run on a tag at another revision without a release refuses and leaves an empty release |
| PublicationRuns.SampleStrayRelease | scripts/magik_ci/publication.py:256-263 | A concrete such run |
| PackagePaths.AddParents | scripts/magik_ci/downloader_db.py:96-99 | Walking from parent to parent collects exactly the proper ancestor folders that the gate computes by comprehension |
| PackagePaths.SafeParts | scripts/magik_ci/distribution.py:79-85 | A safe path is the join of its parts |
| PackagePaths.SplitJoin | scripts/magik_ci/distribution.py:83-84 | Splitting what was joined gives the parts back |
| PackagePaths.AssetNameChars | scripts/magik_ci/distribution.py:88-89 | Asset names of safe paths are printable and flat |
| PathForms.SafePathExactly | scripts/magik_ci/distribution.py:79-85 | A path is safe exactly when it is non-empty, has no control character, backslash or colon, and between two added slashes contains neither `//` nor `/./` nor `/../` |
| PathForms.FoldersExactly | scripts/magik_ci/distribution.py:270-275 | The folders above a safe path are exactly its beginnings that end with a slash |
| PathForms.OwnedExactly | scripts/magik_ci/downloader_db.py:24-37 | A database may own every safe path but those at or below `linux` and `saves`, those named `MiSTer.ini`, `menu.rbf` or `MiSTer`, and drop-ins named `downloader_*.ini` |
| PathForms.AssetNameExactly | scripts/magik_ci/distribution.py:88-89 | The asset of a path is `mister-magik--` and its parts with two dashes between them |
| AssetUrl.ReadsBack | scripts/magik_ci/distribution.py:248-261 | The gate reads from a generated URL exactly the repository, tag and asset the generator put in |
| AssetUrl.LocatedIsPlain | scripts/magik_ci/distribution.py:248-261 | An asset found in any accepted URL contains no slash, question mark or hash |
| UrlForms.LocatesExactly | scripts/magik_ci/distribution.py:246-261 | The gate reads exactly the URLs that spell `https://github.com/owner/name/releases/download/tag/asset`, the scheme in any case and with at most empty query and fragment marks behind, and reads from them just these parts |
| CandidateFiles.VerifyChecksums | scripts/magik_ci/distribution.py:111-129 | The checksum check accepts exactly the lists that name all other files with their digests |
| CandidateFiles.WriteChecksums | scripts/magik_ci/distribution.py:100-108 | A freshly written list is accepted exactly when every file name fits on a line of it |
| CandidateFiles.LineReadsBack | scripts/magik_ci/distribution.py:104-121 | A written line parses to the digest and name it was made from |
| Distribution.Reconstruct | scripts/magik_ci/distribution.py:221-291 | Reading a feed back succeeds exactly when it installs the payload of the receipt from one repository, and finds that repository |
| Distribution.Verify | scripts/magik_ci/distribution.py:294-433 | Candidate verification without leave to write decides acceptance and returns the verdict |
| Distribution.Judge | scripts/magik_ci/distribution.py:294-422 | The checks before the comparison with the recorded verdict find the one verdict on a candidate that passes them |
| AcceptedCandidate.AcceptsExactly | scripts/magik_ci/distribution.py:294-433 | A directory is accepted with a verdict exactly when, file by file: the list has one line for each other file; receipt, archive and every entry agree in name, size and both digests; paths and assets are separate; package and installed tree pass; every feed that is there names each path with digest, size and release URL of its asset, exactly the folders of the paths, and its zip and installer; there is no other file; and the recorded verdict is the one on these files |
| AcceptedCandidate.ListedExactly | scripts/magik_ci/distribution.py:111-129 | The checksum list matches exactly when its lines, in some order, are digest, two blanks and name of every other file once |
| ReceiptWriting.Validate | scripts/magik_ci/distribution.py:294-433 | With or without leave to write, validation succeeds exactly for candidates judged fit whose record is that judgement or may be written; afterwards plain verification accepts with the same verdict, and only record and checksum list have changed |
| ReceiptWriting.ValidatesExactly | scripts/magik_ci/distribution.py:422-433 | Without leave to write, validation accepts what verification accepts; with it, also a directory that is judged fit and has no record yet |
| DownloaderDb.CollectEntries | scripts/magik_ci/downloader_db.py:72-99 | The entry loop builds one item for each path and the closure of all ancestor folders, and accepts exactly valid entries |
| DownloaderDb.Generate | scripts/magik_ci/downloader_db.py:48-124 | Generation succeeds exactly for receipts, tags, timestamps and repositories in order, and writes exactly the three files |
| DownloaderDb.GeneratedFits | scripts/magik_ci/downloader_db.py:91-108 | A generated database is accepted by the gate for every candidate that already has a feed that is |
| DownloaderDb.GateReadsIni | scripts/magik_ci/distribution.py:284-284 | The settings file that the generator writes into an installer is the one that the gate spells out |
| SpelledOut.InstallerNamesOwnFeed | scripts/magik_ci/downloader_db.py:18-21 | The settings of a channel's installer name the zip file of that channel on the downloader branch |
| SpelledOut.ZipNames | scripts/magik_ci/downloader_db.py:18-21 | The feed files are named after alpha, beta and release |
| SpelledOut.UrlText | scripts/magik_ci/downloader_db.py:94-94 | The URL of an asset in a generated database, in full |
| SpelledOut.DecimalExactly | scripts/magik_ci/distribution.py:308-308 | The build number in a version is written in decimal digits without a leading zero |
| PreparedCandidate.GeneratesOnlyFor | scripts/magik_ci/downloader_db.py:59-91 | The generator writes a feed exactly for a receipt of its format whose version, build and tag agree, a proper repository and time, paths it may own, and assets that are there as the receipt has them |
| Promotion.SoundStays | scripts/magik_ci/distribution.py:403-425 | Nothing a promotion writes touches what the verdict depends on |
| Promotion.GeneratedInOrder | scripts/magik_ci/publication.py:204-213 | Generating a further channel keeps the directory acceptable |
| Promotion.ListedIsAccepted | scripts/magik_ci/publication.py:214-215 | With a fresh checksum list the directory is accepted with the same verdict |
| Promotion.PreparePromotion | scripts/magik_ci/publication.py:191-215 | Promotion succeeds exactly for promotable candidates; it ends with the alpha verdict, valid evidence and the feeds of exactly the channels promoted to, generated at its own time, and changes no file but these and the checksum list; a refusal changes nothing |
| PreparedCandidate.PromotableExactly | scripts/magik_ci/publication.py:191-226 | A promotion is possible exactly to beta or release, for an accepted alpha candidate of this repository (`owner/name`) and this 40-digit commit, with the evidence for its verdict, paths that a database may own, and a time from 1000000000 on |
| PreparedCandidate.PromotedFeedExactly | scripts/magik_ci/downloader_db.py:72-107 | The database of a promotion has its identity and time, one item for each path with digest, size and release URL of its asset, and exactly the folders of the paths |
| PreparedCandidate.WrittenExactly | scripts/magik_ci/downloader_db.py:109-124 | After a generation the directory has the database, its zip and, but for alpha, the installer of the channel, and every other file as it was |
| PublishableCandidate.AcceptedIsVerified | scripts/magik_ci/publication.py:243-245 | Every directory that candidate verification and delivery evidence accept is a candidate as publication assumes it: all payload assets and documents are there, each channel has database, feed and installer or none of them, and each feed installs the whole payload, byte for byte, and nothing else |
| PublishableCandidate.FeedInstallsPayload | scripts/magik_ci/distribution.py:221-291 | The items of a feed that fits name exactly the payload assets, with the digests of the files beside it |
| PublishableCandidate.ChannelFilesTogether | scripts/magik_ci/distribution.py:341-355 | In an accepted directory the files of a channel are there together or not at all |
| PublishableCandidate.SpellInjective | scripts/magik_ci/distribution.py:322-355 | No two assets of a candidate share a file name, whatever the payload paths and the build number are |
| PublishableCandidate.NameOf | scripts/magik_ci/distribution.py:334-355 | Every file that the gate allows is an asset of the candidate |
| PublishableCandidate.AcceptedAssets | scripts/magik_ci/publication.py:274-274 | The assets a promotion expects under the version tag are exactly those whose digests the verdict lists |
| CandidateBytes.PromotionComparesBytes | scripts/magik_ci/publication.py:248-253 | When the live feed of the channel before came from one accepted directory, a promotion of another meets its prerequisite exactly when the zipped feed files are equal |
| CandidateBytes.PackedFeedsCompare | scripts/magik_ci/publication.py:248-253 | Feeds are equal, as publication compares them, exactly when their zip files are |
| CandidateBytes.FilesCompare | scripts/magik_ci/publication.py:229-237 | All other assets, the validated receipt included, are equal exactly when the files are |
| PromotionChain.SameTimeSameFeed | scripts/magik_ci/downloader_db.py:101-113 | A feed that a promotion generates again is the same file exactly when it is generated for the same timestamp |
| PromotionChain.NextPublishable | scripts/magik_ci/publication.py:248-275 | When one accepted directory was published, the next one with the same payload can be exactly when both hold the same zipped feed of the published channel |
| PromotionChain.ReleasableAtSameTime | scripts/magik_ci/publication.py:191-294 | From an alpha release that can be published, the prepared beta promotion can be published after it, and the prepared release promotion after that exactly when both promotions had the same timestamp |

## Left out

- LZ4, SHA-256, MD5, zip, zlib and JSON text: decompression is an arbitrary outcome, digests are arbitrary functions, archives and JSON files stand for the values they hold.
- The SAT, Yosys and GHDL runs of the FPGA checkers, and reset glitches between clock edges: inputs are sampled at edges or reset instants.
- RequestTransport.Transport.RisingEdge: the thirteen registers are two records, one for each clock domain, not thirteen separate fields.
- Crc16.CrcWord: words wider than 16 bits, which the scripts would mask byte by byte, are not modelled; records are sequences of 16-bit words.
- The completion queue, return credits and copy-tail logic of the FPGA design, of which only text fragments are in the repository.
- Crc16.HdmiEvidenceHeaderCrc: the generated SystemVerilog text around the constants is not modelled.
- ParticleCloud.SamplePoints: coordinates and counts are exact reals and integers, so floating-point rounding of sums, shares and the proportional key is not modelled; random sampling is an arbitrary stream of points; textures and colours are not modelled.
- Interleave.Interleave: with floating-point keys ties could be broken differently; the model compares exact integers and breaks ties as `max` does.
- PngFilter.Unfilter: chunk parsing and the header checks before decompression.
- PixelRuns.EncodeRuns: the text header of the output file.
- CompactMetadata.VerifyCompactMetadata: the content of the shards and the callers that unpack them; the reader on the device, which repeats the checks of the gate.
- MetadataBuilder.MetadataFileBuilder.Encode: the rows and the compressed shards are collected in one pass and put behind the header at the end, as in the source, but the compressed shards are joined while they are collected.
- Network transport, authentication, timing fields and the payload length check of the framebuffer stream; a frame that fails transport validation is a read error.
- FramebufferStream.FramebufferStreamState.ApplyFrame: messages of errors are not modelled, only that there is one; capture metadata beyond kind, sequence, geometry and rectangle is left out.
- StreamReplica.Viewer.NextFrame: the events a connection will deliver are a given sequence; a call that runs out of events returns as still waiting.
- PixelConversion.Rgb565BlockSimd: vector registers are sequences of lanes; instruction selection is not modelled.
- Publication.GitHub.Upload: the command line client uploads several assets at once; the model uploads one at a time in any order, and a cut falls between them. Retries, authentication and rate limits are left out, and so are concurrent publishers.
- PublishableCandidate.AcceptedIsVerified: the bytes a feed installs are those of the candidate's file whose MD5 digest it announces; that other bytes may have the same digest is not modelled (`CandidateBytes` states it as a hypothesis). `Publication.GitHub.Publish` takes the candidate as already read; that an accepted directory gives such a candidate is this lemma.
- Publication.GitHub.VerifyRemote: name patterns of the client are taken literally.
- Distribution.Verify: extraction of the package, the public-root rules, the mode bits of files and the host manager are one function of receipt, archive and hashes; symbolic links are left out.
- Distribution.Judge: the same function stands for the package checks.
- DownloaderDb.Generate: the receipt is already parsed; malformed JSON is the missing-receipt case.
- Delivery evidence is the candidate id it names; its other fields are constants.
- Telemetry, SD browsing, dashboards, Slint views, build scripts and policy checkers: text matching without a property worth proving.
