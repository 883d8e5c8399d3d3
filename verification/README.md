# nuke-ai-fill: a verified model of the core library and its Ops

This project models the parts of the plug-in where an error would be silent: the content-addressed cache keys, the
background worker, the on-disk image cache and the Op that serves bakes from it, the geometry around the inpainting
network, and the text and name transformations. Each class or loop of the repository is a Dafny class or loop proved
against a function or relation, and the results below are proved about that function or relation for all inputs, all
schedules or all sessions.

`dafny verify dfyconfig.toml` checks everything.

## The modules

- `Bytes`: bytes, machine words and their little-endian layout. `Arithmetic`: division facts.
- `Sha256Spec`, `Sha256Stream`: SHA-256 as FIPS 180-4 defines it, in one shot, and the streaming class with its 64-byte
  carry buffer. `Sha256Constants` and `Sha256Vector` say from outside what the specification computes: its constants are
  the roots that the standard names, its functions are given bit by bit, and the published digest of "abc" comes out.
  The class keeps a ghost record of every byte absorbed; whatever the split into `update` calls and through both padding
  branches, `finalize` is the specification's digest of that record and leaves the object as new.
- `CacheKey`, `OpKeys`: the typed field stream, a decoder for it that accepts exactly the streams, the builder, and the
  fields each Op feeds. Two configurations of an Op have the same stream if and only if they agree on everything keyed.
- `AiWorker`, `AiWorkerObject`: the worker as an interleaving of main-thread steps and `run` bodies, one step for every
  access to shared state, with an inductive invariant over all schedules; and the class, each of whose methods is shown
  to carry out a schedule of that system.
- `ImageCodec`, `ImagePublish`: the `.aifill` printer and parser, and the write protocol (temporary file, remove, rename)
  as a system of writers, one at a time for each path, whose operations may fail, flush any prefix, or stop at a crash.
- `ImageOverlap`, `ImageMixing`: the same protocol when writers of one path may overlap and share the temporary file. As
  long as no writer opens that file while another one holds it open, readers are safe, in particular when writers take
  turns, which refines `ImagePublish`. One that opens beside a holder can leave a mixture of the two images.
- `SmartFill`, `SmartFillServing`, `SmartFillOp`, `SmartFillWorker`, `SmartFillWrites`, `SmartFillLaws`: the bake and
  cache machine of AISmartFill. Between any two of its reads and writes the worker may publish or end, and other nodes
  may write or delete cache files. An image counts as the result for a key when a bake launched under that key wrote it.
  The machine takes a write as one act; `SmartFillWrites` shows that each step of the write protocol is such acts, under
  the one assumption that no writer opens a temporary file that another one holds open. `SmartFillWorker` shows that
  every session is carried out by a schedule of `AiWorker`, event by event, with start() accepted once for each bake.
  `SmartFillLaws` says what each event does when nobody interferes, in terms of files, engine samples and presses.
- `Resize`, `Inpaint`: bilinear resizing, pasting, cropping, compositing and the layout changes of the LaMa session over
  the reals, around a network that is an arbitrary function.
- `AiCache`: pruning and directory normalisation. `LoraList`: the LoRA list, for any number parser.
  `ControlNetKeys`: the tensor-name converter as a transformation of dot-separated segments.

## Where the code and its documentation differ

The model follows the code; each difference is proved.

- A finished bake is not always shown. A bake of the key that the buffer already holds (its file having been deleted, or
  the cache directory changed) ends with the old image still served, because `poll_worker` keeps a buffer of the baked key
  and `try_load_cache_for_key` returns early for it (ops/AISmartFill/AISmartFill.cpp:559-561, 646-664). After any session,
  polling a Done bake whose file is intact serves the new image if and only if the buffer did not hold the key, or held that
  very image: `SmartFillServing.DonePollServesIffCold`; a concrete session is `SmartFillServing.RebakeShowsOldImage`. What is
  served is still an image baked under the current key.
- A concurrent reader may find no file at all, where core/src/image_cache.cpp:101-104 says that it sees the old file or the
  new one. When a file existed, it can during a call if and only if the temporary file is written and the removal works, so in
  every call in which nothing goes wrong: `ImagePublish.ReaderMeetsGapIff`, from the exact set of what a reader can meet in
  `ImagePublish.CallRuns`. In every other call, and whenever there was no file, it meets the old state or the published bytes.
  `ImagePublish.ReplacementGap` replaces one readable image by another without any fault and passes through the gap; over all
  runs a cache file disappears exactly by its own writer's removal (`ImagePublish.GoneExactlyByRemoval`).
- The promise of the same lines that a reader never sees a half-written file is safe as long as no writer opens the
  temporary file while another writer of the path holds it open, which nothing enforces. Calls that overlap otherwise do no
  harm (`ImageOverlap.AloneIsSafe`). Provided that a holder has bytes left to flush that mix into a new image, an opening
  has a continuation in which a reader gets an image nobody wrote if and only if there is a holder at that moment
  (`ImageMixing.OpeningIsSafeIff`). From an empty disk two writers, with that one opening out of order and no
  operation failing, can leave the first n pixels of the one image and the rest of the other
  (`ImageMixing.OverlapMixes`).
- `image_cache_write` can return true over a truncated file, since the flush at close is not checked
  (core/src/image_cache.cpp:131-138). Such a file is always rejected on reading: `ImagePublish.PublishedReadsIff`.
- AIGenerate's comment says that the img2img strength is in the key in both cases (ops/AIGenerate/AIGenerate.cpp:992-996);
  the code leaves it out when no input is connected, and leaves out the ControlNet strength and input when no ControlNet
  model is set: then all their values give one stream (`OpKeys.UnusedStrengthsNotKeyed`), and nothing else does
  (`OpKeys.SameStreamIffSameConfig`).
- `normalize_dir` promises no trailing white space, but a space before trailing slashes survives
  (`AiCache.NormalizedShape`, `AiCache.TrailingSpaceSurvives`).
- `prune` removes for age exactly the entries at least one whole second past the limit, since it truncates ages to seconds:
  one past it by less stays (`AiCache.AgeInTicks`, `AiCache.PastTheLimitStays`). And it leaves at most `max_entries` if and
  only if no more than that survive the age limit, or their number still exceeds the limit after the cast to `int`
  (`AiCache.Prune`): of 2^31 entries a limit of one removes none (`AiCache.CrowdIsNotPruned`). Files whose time cannot be
  read are not considered.

## Limits where nothing is promised

- Decoding a field stream recovers the calls if and only if every string is shorter than 2^32 bytes
  (`CacheKey.DecodesIffFits`). Longer strings can share a stream with other calls: one of exactly 2^32 bytes does
  (`CacheKey.LongStringCollides`).
- Tensor names outside the well-formed ones can get one new name. For all names two do if and only if they mean the same key
  (`ControlNetKeys.SameNewNameIff`), and the loop overwrites nothing if and only if no two of its keys do
  (`ControlNetKeys.NothingOverwrittenIff`). Family by family: every `mid_block.resnets` index but 0 is one
  (`ControlNetKeys.MidResnetsCollideIff`), the index of `mid_block.attentions` and that of a downsampler are ignored
  (`ControlNetKeys.MidAttentionsCollideIff`, `ControlNetKeys.DownsamplersCollideIff`), and a numeral counts as its number, so
  that "0" and "00" are one (`ControlNetKeys.DownResnetsCollideIff`, `ControlNetKeys.ZeroTwice`).

## Model

| member | source | states |
|---|---|---|
| `Sha256Stream.Sha256.constructor` | core/src/ai_hash.cpp:76-84 | a new hasher is streaming with nothing absorbed |
| `Sha256Stream.Sha256.Reset` | core/src/ai_hash.cpp:80-84 | from any state the object becomes that of an empty message |
| `Sha256Stream.Sha256.Transform` | core/src/ai_hash.cpp:86-120 | the state becomes section 6.2.2's compression of the old state with the 64-byte block |
| `Sha256Stream.Sha256.FillSchedule` | core/src/ai_hash.cpp:86-100 | the array holds the message schedule W of section 6.2.2, defined by recursion on the block |
| `Sha256Stream.Sha256.RunRounds` | core/src/ai_hash.cpp:102-116 | 64 turns of the eight variables are the 64 rounds of the standard |
| `Sha256Stream.Sha256.Update` | core/src/ai_hash.cpp:122-140 | for any data, however it straddles the carry buffer, exactly these bytes are appended to what has been absorbed, and state, buffer and bit count stay those of the absorbed message |
| `Sha256Stream.Sha256.AppendEndMark` | core/src/ai_hash.cpp:142-156 | after the end mark the fill mark is 56 and the absorbed bytes are the message, 0x80 and the standard's number of zeros, whether or not a second block is needed |
| `Sha256Stream.Sha256.Finalize` | core/src/ai_hash.cpp:142-175 | the result is the one-shot SHA-256 of everything absorbed; the object is then that of an empty message |
| `Sha256Stream.Sha256.Digest` | core/src/ai_hash.cpp:177-181 | the static digest is SHA-256 of the data |
| `Sha256Stream.Sha256.DigestOfPieces` | core/src/ai_hash.cpp:122-175 | for every way of cutting a message into updates, the digest is SHA-256 of the concatenation |
| `Sha256Stream.Sha256.ToHex` | core/src/ai_hash.cpp:183-192 | the loop prints the 64 hexadecimal digits, high half first |
| `Sha256Stream.HexRoundTrip` | core/src/ai_hash.cpp:183-192 | the printed digest is 64 lower-case hexadecimal digits from which the digest can be read back |
| `Sha256Constants.FirstPrimes` | core/src/ai_hash.cpp:16-17 | the list of primes used below holds the first 64 primes: they are prime, in order, from 2 to 311, with no prime between neighbours |
| `Sha256Constants.ConstantsAreCubeRoots` | core/src/ai_hash.cpp:16-35 | for every t below 64, with p the t-th prime and k its integer cube root times 2^32 plus K[t], k^3 <= p * 2^96 < (k + 1)^3 |
| `Sha256Constants.InitialWordsAreSquareRoots` | core/src/ai_hash.cpp:37-42 | the same for the eight initial words, with squares and 2^64 |
| `Sha256Constants.RotrBits` | core/src/ai_hash.cpp:44-46 | for every amount that the hash uses, bit i of the rotated word is bit i plus the amount, modulo 32, of the word |
| `Sha256Constants.ChUnderMask` | core/src/ai_hash.cpp:48-50 | under every mask: the second word where the first is set, the third where it is not |
| `Sha256Constants.MajUnderMask` | core/src/ai_hash.cpp:52-54 | under every mask: where two of the words agree, what they agree on |
| `Sha256Constants.HashBlocksIsChained` | core/src/ai_hash.cpp:122-140 | the state after a message of whole blocks is the initial words compressed with each 64 bytes in turn |
| `Sha256Constants.PaddingOf` | core/src/ai_hash.cpp:142-163 | the padded message is the message, 0x80, the least number of zeros that fills whole blocks, and eight bytes |
| `Sha256Constants.LengthField` | core/src/ai_hash.cpp:157-163 | these are the bit count modulo 2^64, high byte first |
| `Sha256Vector.DigestOfAbc` | core/src/ai_hash.cpp:86-175 | the digest of "abc" is the one that FIPS 180-4 publishes |
| `CacheKey.CacheKeyBuilder.AddString` | core/src/ai_cache.cpp:68-72 | appends one string field to the recorded calls, the hasher having absorbed exactly their stream |
| `CacheKey.CacheKeyBuilder.AddCString` | core/src/ai_cache.cpp:74-76 | a null pointer is the field of the empty string |
| `CacheKey.CacheKeyBuilder.AddInt32` | core/src/ai_cache.cpp:78-81 | appends one int32 field; negative values by two's complement |
| `CacheKey.CacheKeyBuilder.AddInt64` | core/src/ai_cache.cpp:83-87 | appends one int64 field from its two halves |
| `CacheKey.CacheKeyBuilder.AddFloat` | core/src/ai_cache.cpp:89-95 | appends one float field by its bits |
| `CacheKey.CacheKeyBuilder.AddDouble` | core/src/ai_cache.cpp:97-104 | appends one double field by its bits |
| `CacheKey.CacheKeyBuilder.AddBool` | core/src/ai_cache.cpp:106-110 | appends one bool field |
| `CacheKey.CacheKeyBuilder.AddOpHash` | core/src/ai_cache.cpp:112-116 | appends one upstream-hash field |
| `CacheKey.CacheKeyBuilder.Finalize` | core/src/ai_cache.cpp:118-121 | the key is the hexadecimal digest of the stream of all calls since the start, a valid key name, and the builder starts afresh |
| `CacheKey.EncodedAs` | core/src/ai_cache.cpp:33-116 | each call adds its letter, then the length and bytes of a string, a two's complement or raw value with its low byte first, or one byte |
| `CacheKey.StreamDecodes` | core/src/ai_cache.cpp:33-121 | decoding the byte stream of any list of calls with 32-bit string lengths gives back that list |
| `CacheKey.DecodedIsStream` | core/src/ai_cache.cpp:33-121 | whatever the decoder accepts is the stream of the list it returns |
| `CacheKey.DecodesIffFits` | core/src/ai_cache.cpp:68-72 | a list of calls is recovered from its stream if and only if all its strings are shorter than 2^32 bytes |
| `CacheKey.StreamInjective` | core/src/ai_cache.cpp:33-121 | two lists of calls with the same bytes are the same list |
| `CacheKey.LongStringCollides` | core/src/ai_cache.cpp:68-72 | a string of 2^32 bytes has the same stream as an empty string and 2^31 bools |
| `CacheKey.IsHexKey` | core/src/ai_cache.cpp:155-162 | accepts exactly the strings of 64 lower-case hexadecimal digits |
| `CacheKey.KeysAreHexKeys` | core/src/ai_cache.cpp:118-121 | every key any list of calls can produce is a valid key name, and equal keys have equal digests |
| `OpKeys.NormalizePath` | ops/AIGenerate/AIGenerate.cpp:80-84 | the loop replaces every backslash by a slash and nothing else |
| `OpKeys.ComputeCacheKey` | ops/AIGenerate/AIGenerate.cpp:959-1027 | the key is that of the configuration's field list, and a valid key name |
| `OpKeys.LoraListEnds` | ops/AIGenerate/AIGenerate.cpp:984-990 | configurations with LoRA lists of different lengths never have the same fields from the list on |
| `OpKeys.SameStreamIffSameKeyed` | ops/AIGenerate/AIGenerate.cpp:959-1027 | two configurations have the same pre-hash stream if and only if they agree on prompts, sizes, seed, model paths up to slashes, the LoRA list in order, and the connected state, strength and hash of both inputs where they are used |
| `OpKeys.SameKeyedIffSameConfig` | ops/AIGenerate/AIGenerate.cpp:959-1027 | agreeing on everything keyed, said of the configurations: equal but that a slash may stand for a backslash in a path, for the strength of an absent source, and for the strength and input of an absent ControlNet |
| `OpKeys.SameStreamIffSameConfig` | ops/AIGenerate/AIGenerate.cpp:959-1027 | two configurations have the same stream if and only if they are the same up to that |
| `OpKeys.GenerateFieldsOf` | ops/AIGenerate/AIGenerate.cpp:959-1027 | the fields in order, markers byte by byte, with nothing connected and with everything and two LoRAs |
| `OpKeys.CastIs` | ops/AIGenerate/AIGenerate.cpp:984-986 | the count of LoRAs goes in as the one 32-bit integer that differs from it by a multiple of 2^32 |
| `OpKeys.UnusedStrengthsNotKeyed` | ops/AIGenerate/AIGenerate.cpp:992-1024 | with no source connected any two strengths, and with no ControlNet model any two ControlNet strengths and inputs, give the same stream |
| `OpKeys.ComputeFillKey` | ops/AISmartFill/AISmartFill.cpp:395-421 | the key is that of AISmartFill's field list, and a valid key name |
| `OpKeys.SameFillStreamIff` | ops/AISmartFill/AISmartFill.cpp:395-421 | two AISmartFill streams agree if and only if each input has the same hash in both, or is missing in one and has hash zero in the other, threshold bits and backend are equal, and the model paths without trailing white space agree byte by byte, but that a slash may stand for a backslash |
| `OpKeys.DropTrailingSpaceTrims` | ops/AISmartFill/AISmartFill.cpp:104-112 | the path that is keyed is the configured one without its trailing white space and nothing more |
| `OpKeys.FillFieldsOf` | ops/AISmartFill/AISmartFill.cpp:395-421 | the fields in order, with both inputs and with none |
| `OpKeys.OpsNeverShareAStream` | ops/AIGenerate/AIGenerate.cpp:966-968 | no AIGenerate stream equals an AISmartFill stream |
| `AiWorker.InvStep` | core/src/ai_worker.cpp:49-141 | every step of either thread keeps the invariant |
| `AiWorker.InvRun` | core/src/ai_worker.cpp:49-141 | the invariant holds after every schedule |
| `AiWorker.AtMostOneBody` | core/src/ai_worker.cpp:49-103 | in every schedule at most one `run` body is live, Idle means no live or unjoined thread, start's defensive join has nothing to join, destruction leaves no body, and no joinable handle is ever overwritten |
| `AiWorker.StateOnlyCycles` | core/include/ai_worker.h:47-57 | the state only moves Idle to Running to a final state to Idle |
| `AiWorker.FinishedRunIsReported` | core/src/ai_worker.cpp:114-141 | outside the middle of a reset, a visible final state is Error exactly when the task threw, Cancelled exactly when it returned after a cancel, Done otherwise; the error string is that run's message, and empty in Idle, Done and Cancelled |
| `AiWorker.AskedIffCancelled` | core/src/ai_worker.cpp:76-78 | the model's record of a cancel is exactly: somewhere in the schedule cancel() is called, by the destructor too, and no start() is accepted after it |
| `AiWorker.CancelBeforeCheckDecides` | core/src/ai_worker.cpp:118-124 | after every schedule, a body that looks goes on to Cancelled if cancel() was called in the schedule after the last accepted start(), and to Done otherwise |
| `AiWorker.DriveToExit` | core/src/ai_worker.cpp:114-141 | a body exits within as many steps as its position ranks, however its task ends |
| `AiWorker.JoinCompletes` | core/src/ai_worker.cpp:80-84 | after any schedule with a joinable thread, four steps of that thread unblock the join |
| `AiWorkerObject.Worker.Run` | core/src/ai_worker.cpp:114-141 | the method is four steps of the body in the interleaving system |
| `AiWorkerObject.Worker.BodyStep` | core/src/ai_worker.cpp:114-141 | each single access of a body is one step of the system |
| `AiWorkerObject.Worker.Start` | core/src/ai_worker.cpp:49-74 | accepted exactly in Idle; then the object is that of the call's four steps, otherwise unchanged; the invariant is kept |
| `AiWorkerObject.Worker.Cancel` | core/src/ai_worker.cpp:76-78 | is the cancel step of the system |
| `AiWorkerObject.Worker.Join` | core/src/ai_worker.cpp:80-84 | returns with no live body and no handle, as the schedule of the thread's steps and the join |
| `AiWorkerObject.Worker.Reset` | core/src/ai_worker.cpp:86-103 | from a final state ends Idle, without error string or handle, as a schedule of the system; in Idle and Running changes nothing |
| `AiWorkerObject.Worker.Destroy` | core/src/ai_worker.cpp:37-47 | cancels and waits: no body outlives the object and no joinable handle is destroyed |
| `ImageCodec.ImageCacheRead` | core/src/image_cache.cpp:157-191 | reading through the stream, with its short reads, gives what the parser says of the bytes, error by error |
| `ImageCodec.InStream.ReadHeader` | core/src/image_cache.cpp:59-86 | the field-by-field header reader agrees with the header parser on every file and leaves the stream at the pixels |
| `ImageCodec.ImageCacheInspect` | core/src/image_cache.cpp:193-207 | gives the header parser's answer |
| `ImageCodec.ReadAcceptsExactly` | core/src/image_cache.cpp:59-86 | reading succeeds with an image exactly on the files made of its header (any reserved word), all its pixel bytes and any tail |
| `ImageCodec.WriteThenRead` | core/src/image_cache.cpp:117-129 | what is written reads back as the image |
| `ImageCodec.TruncatedFails` | core/src/image_cache.cpp:157-191 | every strict prefix of a written file is rejected |
| `ImageCodec.EncodeInjective` | core/src/image_cache.cpp:117-129 | no written file is a prefix of another image's |
| `ImageCodec.InspectAgrees` | core/src/image_cache.cpp:193-207 | inspecting tells the dimensions of every readable file, and passes no unreadable file but one short of pixels |
| `ImageCodec.FileLayout` | core/src/image_cache.cpp:117-129 | a written file is the eight magic bytes, 1, width, height, channels, 0 and the pixels, each a word with its low byte first |
| `ImageCodec.ReadFailures` | core/src/image_cache.cpp:59-86 | for every file, which error it gives, in the order of the tests, or that it reads; sizes from 1 to 32768 and 1 to 8 channels are accepted |
| `ImagePublish.ImageCacheWrite` | core/src/image_cache.cpp:90-155 | rejects bad arguments untouched; succeeds exactly when open, stream and rename do; on success the destination is the flushed prefix and the temporary file is gone, on failure no other file changes; and on a cache file name the files afterwards are those of the call's schedule in the step system |
| `ImagePublish.Serialize` | core/src/image_cache.cpp:117-129 | the written bytes are the encoding of the image |
| `ImagePublish.InvRun` | core/src/image_cache.cpp:90-155 | kept by every run of any writers, failures and crashes: each cache file is a prefix of an image passed to a write for its path |
| `ImagePublish.ReaderSeesWholeImages` | core/src/image_cache.cpp:101-104 | at every point of every run a reader fails or gets a whole image passed to a write for that path |
| `ImagePublish.ReplacedInOneStep` | core/src/image_cache.cpp:140-153 | a cache file's bytes change only by its writer's rename, in one step |
| `ImagePublish.GoneExactlyByRemoval` | core/src/image_cache.cpp:140-145 | in every reachable state an existing cache file disappears in a step if and only if it is its own writer's removal and that works |
| `ImagePublish.CallRuns` | core/src/image_cache.cpp:90-155 | a call is its schedule; and what a reader can meet during it is exactly what was there before, no file if the removal is reached and works, and the published bytes if the rename is reached and works |
| `ImagePublish.ReaderMeetsGapIff` | core/src/image_cache.cpp:101-104 | for every call on an existing file, a reader can meet no file if and only if the temporary file is written and the removal works; otherwise, and with no old file, it meets the old state or the published bytes |
| `ImagePublish.ReplacementGap` | core/src/image_cache.cpp:101-104 | replacing any readable image by any other with no fault, the reader starts with the old image, ends with the new one, and in between there is a moment with no file |
| `ImageOverlap.SafeStep` | core/src/image_cache.cpp:105-153 | a step of any of several writers of a path keeps this: every temporary file past its opening is a cut of an image written for the path, at most one writer holds it open, and what it holds is what that writer has flushed; provided that no writer opens it beside a holder |
| `ImageOverlap.AloneIsSafe` | core/src/image_cache.cpp:101-115 | however calls overlap, in every run in which no writer opens the temporary file beside a holder a reader fails or gets a whole image passed to a write for that path |
| `ImageOverlap.TurnsAreSafe` | core/src/image_cache.cpp:101-115 | in particular in every run in which the writers of each path take turns |
| `ImageOverlap.TurnsRefine` | core/src/image_cache.cpp:105-153 | such a run, with shared temporary files written at offsets, is a run of the one-writer system |
| `ImageMixing.MixContinues` | core/src/image_cache.cpp:114-147 | once a writer has opened beside a holder, the two can go on, without another opening or a failing operation, to publish the first c bytes of the one file and the rest of the other, for every c from which the holder can still flush |
| `ImageMixing.OpeningIsSafeIff` | core/src/image_cache.cpp:114-115 | at a safe point where a writer is about to open, a continuation without another opening beside a holder reads as an image nobody wrote if and only if another writer of the path holds the file open, holders being taken to have bytes left to flush that mix into a new image |
| `ImageMixing.DifferingMixes` | core/src/image_cache.cpp:117-129 | when only the two have been writing, images of one size that differ on both sides of a pixel not yet flushed past mix into a new image |
| `ImageMixing.OverlapMixes` | core/src/image_cache.cpp:105-129 | for every two images of one size and every n there is a run of two writers, no operation failing and nothing out of order but the second opening, after which the path reads as the first n pixels of one and the rest of the other; it is one of the two images if and only if they agree on one of the parts |
| `ImagePublish.PublishedReadsIff` | core/src/image_cache.cpp:131-138 | a published file reads as its image if and only if no byte was lost at close |
| `ImagePublish.NoTemporaryLeft` | core/src/image_cache.cpp:131-153 | a call that opened the temporary file leaves none behind unless the cleanup itself fails; one that could not open it changes nothing |
| `SmartFill.ResultPathInjective` | ops/AISmartFill/AISmartFill.cpp:384-389 | two keys never share a cache file, in one directory or several |
| `SmartFill.InvHandle` | ops/AISmartFill/AISmartFill.cpp:427-832 | every event keeps: files are prefixes of their key's bakes, the buffer is empty or a bake of its key, a worker that is not Idle has its key |
| `SmartFill.InvRun` | ops/AISmartFill/AISmartFill.cpp:427-832 | the invariant holds after every session |
| `SmartFill.EngineShowsCurrentBake` | ops/AISmartFill/AISmartFill.cpp:481-543 | after every session the engine passes the source through, or shows one image written by a bake launched under exactly the current key where it covers and the source elsewhere |
| `SmartFill.BakeNeverRefused` | ops/AISmartFill/AISmartFill.cpp:691-832 | a press that reaches the worker finds it Idle and is accepted; a worker that is not Idle has a non-empty baking key, that of its task |
| `SmartFillWorker.SessionIsSchedule` | ops/AISmartFill/AISmartFill.cpp:628-832 | every session has a schedule of the two threads in one segment per event: after each event the main thread is between calls, the worker's state is the session's, and as many bodies have been launched as bakes; start() is accepted once in the segment of each press that reaches the worker and in no other |
| `SmartFillWorker.PressIsAccepted` | core/src/ai_worker.cpp:49-74 | in whatever schedule carries out a session, the segment of a press that reaches the worker has start() accepted at exactly one step, where that schedule has the worker Idle, nothing to join and no live body |
| `SmartFillWrites.TurnsAreActs` | ops/AISmartFill/AISmartFill.cpp:824-830 | however the bake's write is interleaved with writes of other cache files, each step is at most one act, by whoever takes it, and after every step the cache files are those of the machine |
| `SmartFillWrites.OverlapsAreActs` | ops/AISmartFill/AISmartFill.cpp:824-830 | the same when writes of one file overlap in any way but that a writer opens the temporary file beside a holder |
| `SmartFillWrites.ReadsAreReads` | core/src/image_cache.cpp:157-191 | so reading a cache file reads what the machine's file says |
| `SmartFillServing.PressLaunches` | ops/AISmartFill/AISmartFill.cpp:691-832 | every press that reaches the worker, with a cache directory set and nobody creating the file between the test and the launch, is a launch in the sense of the next row |
| `SmartFillServing.DonePollServesIffCold` | ops/AISmartFill/AISmartFill.cpp:437-438 | after every session, presses, knob changes and clearings included: polling a Done bake whose file is intact and whose key is current leaves the worker Idle and serves that key, and what it serves is the new image if and only if the buffer did not hold the key, or held that very image |
| `SmartFillServing.DoneBakeServedIffCold` | ops/AISmartFill/AISmartFill.cpp:437-438 | through any validations, and whatever other nodes do to other files: once the launched bake is Done the next validation leaves the worker Idle and serves the current key, and what it serves is the new image if and only if the buffer did not hold the key at the launch, or held that very image |
| `SmartFillServing.RebakeShowsOldImage` | ops/AISmartFill/AISmartFill.cpp:559-561 | for every configuration, a session after which the file holds the new image and the engine serves the old one |
| `SmartFillLaws.SameKeyIff` | ops/AISmartFill/AISmartFill.cpp:395-421 | two configurations have the same key exactly when the digests of their streams agree |
| `SmartFillLaws.ClearForgets` | ops/AISmartFill/AISmartFill.cpp:592-622 | after clearing no removable file of a key is left, every other file is as it was, the engine passes the source through, and worker and knobs are untouched |
| `SmartFillLaws.ValidateShows` | ops/AISmartFill/AISmartFill.cpp:427-462 | after an undisturbed validation the engine shows the buffer it had for the current key, failing that the image in the current key's file, failing that the source |
| `SmartFillLaws.PressLaunchesIff` | ops/AISmartFill/AISmartFill.cpp:691-832 | an undisturbed press reaches the worker if and only if no bake is running, both inputs are connected images, the source has a size and the current key has no file; the task is to write an image of that size to that file |
| `SmartFillLaws.PressShowsFile` | ops/AISmartFill/AISmartFill.cpp:733-741 | when the current key has a readable file the press shows it, unless the buffer is for that key already |
| `SmartFillLaws.ClearedBakesAgain` | ops/AISmartFill/AISmartFill.cpp:592-622 | after a clearing that removes the current key's file a press launches again |
| `SmartFillLaws.BakeHasPressSize` | ops/AISmartFill/AISmartFill.cpp:794-830 | whatever happens meanwhile, the image a bake writes has the size the source had when it was pressed |
| `SmartFillLaws.EngineLayout` | ops/AISmartFill/AISmartFill.cpp:506-535 | red, green and blue are samples 0, 1 and 2 of the pixel at the offset from the bounding box; other channels and positions outside are the source's |
| `SmartFillOp.AISmartFill.PollWorker` | ops/AISmartFill/AISmartFill.cpp:628-685 | the whole new state: Idle after a final state, and the buffer dropped exactly when a Done bake was for another key |
| `SmartFillOp.AISmartFill.TryLoadCacheForKey` | ops/AISmartFill/AISmartFill.cpp:549-590 | the whole new state in each of the six outcomes, with the file changing between test and read |
| `SmartFillOp.AISmartFill.Validate` | ops/AISmartFill/AISmartFill.cpp:427-462 | is the validation event of the machine |
| `SmartFillOp.AISmartFill.StartBake` | ops/AISmartFill/AISmartFill.cpp:691-832 | is the bake event of the machine and keeps its invariant; reaches the worker exactly under the launch condition and is then accepted |
| `SmartFillOp.AISmartFill.ClearCacheDir` | ops/AISmartFill/AISmartFill.cpp:592-622 | removes the removable cache files and empties the buffer; no directory, no change |
| `SmartFillOp.AISmartFill.Engine` | ops/AISmartFill/AISmartFill.cpp:481-543 | every output sample of a row is the machine's engine sample at that position |
| `Resize.BilinearResize` | core/src/lama_tiler.cpp:39-80 | every output sample is the bilinear blend at its own coordinate |
| `Resize.ResizeMirrorX` | core/src/lama_tiler.cpp:39-80 | for all sizes, resizing the left-right mirror image is mirroring the resized image |
| `Resize.ResizeMirrorY` | core/src/lama_tiler.cpp:39-80 | the same top to bottom |
| `Resize.ResizeIdentity` | core/src/lama_tiler.cpp:39-80 | resizing to the same size is the identity |
| `Resize.ResizeKeepsBounds` | core/src/lama_tiler.cpp:45-77 | any bounds of a source channel, its minimum and maximum among them, bound the resized channel, clamped edges included |
| `Resize.ResizeIsExact` | core/src/lama_tiler.cpp:45-77 | on every channel that is a surface p * x + q * y + r * x * y + g, each output sample is the surface at the source position of its centre, held at the borders |
| `Resize.TapsMirror` | core/src/lama_tiler.cpp:54-66 | the neighbours of a mirrored sample are the mirrored neighbours with the weights exchanged |
| `Inpaint.CopyIntoCanvas` | core/src/lama_tiler.cpp:96-118 | row copies give the base image with the source over its top left corner, as far as both reach |
| `Inpaint.PlacedPixel` | core/src/lama_tiler.cpp:96-118 | a pixel inside the pasted region is the source's at the same coordinate, any other is the base's |
| `Inpaint.CompositeMasked` | core/src/lama_tiler.cpp:124-144 | each sample is taken from the one image or the other by the mask of its pixel |
| `Inpaint.CompositePixel` | core/src/lama_tiler.cpp:124-144 | by coordinates: below 0.5 the base pixel, otherwise the inpainted one |
| `Inpaint.SessionRun` | core/src/lama_session.cpp:242-356 | writes the network's picture back in interleaved order, or fails and writes nothing when its shape is wrong |
| `Inpaint.Transpose` | core/src/lama_session.cpp:267-281 | the planar copy holds pixel i of channel c at c*512*512 + i |
| `Inpaint.Interleave` | core/src/lama_session.cpp:346-355 | the interleaved output is the scaled planar picture |
| `Inpaint.TransposesCancel` | core/src/lama_session.cpp:267-355 | the two layout changes cancel up to the output scale |
| `Inpaint.ScaledSizeFits` | core/src/lama_tiler.cpp:168-193 | for all sizes the working size is within 1..512; when resizing, the longer side is 512 and the shorter within one half of exact aspect, or 1 |
| `Inpaint.IndicesAreInts` | core/src/lama_tiler.cpp:54-77 | with 3*width*height below 2^31, every flat index on image, working image and canvas fits a C++ int |
| `Inpaint.InpaintImage` | core/src/lama_tiler.cpp:150-261 | ends as the arguments, the progress callback and the network decide, with the inpainted image; otherwise the output is untouched, except that the last progress report can cancel after it is complete |
| `Inpaint.MakeCanvas` | core/src/lama_tiler.cpp:172-217 | the buffers hold the fitted image over zeros |
| `Inpaint.MakeFill` | core/src/lama_tiler.cpp:226-258 | cropping, and upsampling when needed, give the fill of the original size |
| `Inpaint.CanvasPixel` | core/src/lama_tiler.cpp:172-217 | a canvas pixel is the source's at the same coordinate, the resampled one, or zero outside the active region |
| `Inpaint.CropPixel` | core/src/lama_tiler.cpp:226-255 | the crop shows the network's pixel at its own coordinate |
| `Inpaint.InpaintedPixel` | core/src/lama_tiler.cpp:168-258 | for every size, network and mask: below 0.5 the source pixel; otherwise the network's at the same coordinate, or the resampled crop at the same coordinate |
| `Inpaint.InpaintedByIndex` | core/src/lama_tiler.cpp:168-258 | for every network: what its two arguments hold at every plane, row and column (the fitted image and the fitted mask, zero outside), when its output is accepted, and what every sample of the result is in terms of that output |
| `Inpaint.MaskIsShown` | core/src/lama_session.cpp:283-307 | with a network that shows its mask, the result shows where the mask is at least 0.5 the mask, for a larger image resampled down and up |
| `Inpaint.MaskIsShownInPlace` | core/src/lama_session.cpp:283-307 | in an image that fits, such a pixel shows its own mask value in all three channels |
| `Inpaint.FinishesIff` | core/src/lama_tiler.cpp:150-261 | a call with buffers and a size finishes if and only if the network's picture has the right shape and the progress reports at 0, 0.2, 0.8 and 1 let it go on |
| `Inpaint.PassThroughIsIdentity` | core/src/lama_tiler.cpp:211-258 | with a network that returns its input times 255, every image up to 512 by 512 comes back unchanged under every mask |
| `Inpaint.InpaintedWithin` | core/src/lama_tiler.cpp:150-261 | images in [0,1] stay in [0,1] when the network keeps to [0,255] |
| `AiCache.Collect` | core/src/ai_cache.cpp:249-270 | the vector holds every key-named `.exr` with a readable time, once |
| `AiCache.RemoveOld` | core/src/ai_cache.cpp:272-294 | exactly the entries past the age limit go, with their sidecars, and are counted |
| `AiCache.SortNewestFirst` | core/src/ai_cache.cpp:296-301 | a permutation in newest-first order |
| `AiCache.RemoveExcess` | core/src/ai_cache.cpp:302-311 | exactly the entries after the first max_entries go |
| `AiCache.Prune` | core/src/ai_cache.cpp:236-315 | removed entries are entries; every one at least a second past the age limit goes; at most max_entries stay if and only if no more survive the age limit or their number exceeds the limit as an int; no removed entry is newer than a kept one; nothing goes without a limit's reason; the result is their number and the directory loses exactly the removable ones and their sidecars |
| `AiCache.AgeInTicks` | core/src/ai_cache.cpp:278-280 | the truncated age exceeds the limit if and only if the entry is at least one whole second past it |
| `AiCache.PastTheLimitStays` | core/src/ai_cache.cpp:278-280 | an entry past a limit of one second by one tick is not removed |
| `AiCache.CrowdIsNotPruned` | core/src/ai_cache.cpp:297 | of a directory of 2^31 entries a limit of one removes none |
| `AiCache.CleanRemoval` | core/src/ai_cache.cpp:236-315 | when every removal succeeds, kept and removed entries are the original ones, kept files are untouched with their sidecars, and no removed entry keeps its sidecar |
| `AiCache.EntryNames` | core/src/ai_cache.cpp:249-270 | the entries are the files with a readable time whose names are a key with ".exr"; the sidecar is the key with ".json" |
| `AiCache.NormalizeDir` | core/src/ai_cache.cpp:131-146 | the three loops compute the normal form |
| `AiCache.NormalizedShape` | core/src/ai_cache.cpp:129-146 | forward slashes only, no trailing slash; ends in white space, and is not a fixed point, exactly when a space precedes the trailing slashes |
| `AiCache.NormalizedKeeps` | core/src/ai_cache.cpp:129-146 | the result is a beginning of the directory with slashes for backslashes; what is cut off are slashes followed by white space |
| `AiCache.TrailingSpaceSurvives` | core/src/ai_cache.cpp:129-146 | "a /" keeps its space, and normalising again removes it |
| `LoraList.ParseLoras` | ops/AIGenerate/AIGenerate.cpp:868-931 | for every number parser, the result is the concatenation of what the lines contribute; a null knob gives nothing |
| `LoraList.ParseOne` | ops/AIGenerate/AIGenerate.cpp:884-929 | the loop body gives a line's contribution |
| `LoraList.ParseJoin` | ops/AIGenerate/AIGenerate.cpp:868-931 | parsing two texts joined by a newline is the concatenation of the two parses |
| `LoraList.CommentsLeaveNoTrace` | ops/AIGenerate/AIGenerate.cpp:884-886 | a blank or comment line between any two texts changes nothing |
| `LoraList.BarePathHasWeightOne` | ops/AIGenerate/AIGenerate.cpp:891-928 | a path without a weight, a drive-letter path too, is itself with the default weight |
| `LoraList.ColonWithoutWeight` | ops/AIGenerate/AIGenerate.cpp:891-912 | a last colon that no number follows belongs to the path, which has the default weight |
| `LoraList.TrimIs` | ops/AIGenerate/AIGenerate.cpp:875-880 | trimming cuts off the white space at both ends and nothing else |
| `LoraList.ResolveIs` | ops/AIGenerate/AIGenerate.cpp:917-923 | a path is prefixed exactly when there is a directory and it starts with neither slash nor a drive letter |
| `LoraList.PrintedListParses` | ops/AIGenerate/AIGenerate.cpp:868-931 | for every number parser, printing a list as `path : weight` lines, with weights it accepts, and parsing it gives the list in order, without zero weights and with relative paths prefixed |
| `LoraList.PrintedDecimalsParse` | ops/AIGenerate/AIGenerate.cpp:868-931 | with plain decimals the weights come back with their values |
| `ControlNetKeys.JoinSplit` | tools/convert_sdxl_controlnet.py:104-200 | a name is the dotted join of its dotless segments |
| `ControlNetKeys.NumParses` | tools/convert_sdxl_controlnet.py:130-151 | int() of a canonical numeral is its number |
| `ControlNetKeys.SignedForms` | tools/convert_sdxl_controlnet.py:130-151 | a sign before a numeral counts |
| `ControlNetKeys.SpacedForms` | tools/convert_sdxl_controlnet.py:130-151 | white space around it does not |
| `ControlNetKeys.GroupedForms` | tools/convert_sdxl_controlnet.py:130-151 | nor does an underscore between digits |
| `ControlNetKeys.NotInt` | tools/convert_sdxl_controlnet.py:130-151 | two underscores in a row or any other character inside make int() raise |
| `ControlNetKeys.ConvertsToLegacy` | tools/convert_sdxl_controlnet.py:104-200 | on every well-formed name, whatever the suffix, the conversion is the table of legacy names, or none |
| `ControlNetKeys.ConvertedFixed` | tools/convert_sdxl_controlnet.py:107-144 | the names that the converter's summary gives to conv_in, the time and add embeddings and the mid-block zero convolution, before any suffix |
| `ControlNetKeys.ConvertedHints` | tools/convert_sdxl_controlnet.py:123-134 | the same for the eight layers of the conditioning embedding |
| `ControlNetKeys.ConvertedZeroConvs` | tools/convert_sdxl_controlnet.py:136-140 | a zero convolution keeps its index |
| `ControlNetKeys.ConvertedAttentions` | tools/convert_sdxl_controlnet.py:163-196 | each attention of the down blocks and of the middle block goes to its place in the legacy layout |
| `ControlNetKeys.ConvertedDownsamplers` | tools/convert_sdxl_controlnet.py:170-176 | so do the two downsamplers |
| `ControlNetKeys.ConvertedDownResnets` | tools/convert_sdxl_controlnet.py:153-161 | so do the six resnets of the down blocks, with their layer renamed |
| `ControlNetKeys.ConvertedMidResnets` | tools/convert_sdxl_controlnet.py:185-192 | and the two of the middle block |
| `ControlNetKeys.RenamedLayers` | tools/convert_sdxl_controlnet.py:65-78 | what each layer of a resnet is called |
| `ControlNetKeys.RenamedIff` | tools/convert_sdxl_controlnet.py:65-78 | a layer's weight and bias are renamed with it, and nothing else is |
| `ControlNetKeys.LegacyInvertible` | tools/convert_sdxl_controlnet.py:65-99 | from a legacy name the diffusers name can be computed back |
| `ControlNetKeys.ConvertKeyInjective` | tools/convert_sdxl_controlnet.py:104-200 | two well-formed names with the same new name are the same name |
| `ControlNetKeys.GrammarNeverRaises` | tools/convert_sdxl_controlnet.py:104-200 | no well-formed name makes int() raise |
| `ControlNetKeys.SameNewNameIff` | tools/convert_sdxl_controlnet.py:104-200 | for all names that are converted, the new names agree if and only if the names mean the same key |
| `ControlNetKeys.MeaningOfSegments` | tools/convert_sdxl_controlnet.py:104-200 | a well-formed name that has a legacy name means itself |
| `ControlNetKeys.MidResnetsCollideIff` | tools/convert_sdxl_controlnet.py:185-192 | two mid_block resnet names get the same new name if and only if their layers agree and their indices are the same number or both not 0 |
| `ControlNetKeys.MidAttentionsCollideIff` | tools/convert_sdxl_controlnet.py:194-196 | two mid_block attention names get the same new name if and only if what follows the index agrees |
| `ControlNetKeys.DownsamplersCollideIff` | tools/convert_sdxl_controlnet.py:170-176 | two downsampler names get the same new name if and only if their blocks are the same number and what follows conv agrees |
| `ControlNetKeys.DownResnetsCollideIff` | tools/convert_sdxl_controlnet.py:153-161 | two down-block resnet names get the same new name if and only if block and index are the same numbers and the layers agree |
| `ControlNetKeys.ZeroTwice` | tools/convert_sdxl_controlnet.py:151-155 | "0" and "00" are the same number |
| `ControlNetKeys.Shaped` | tools/convert_sdxl_controlnet.py:249-256 | reshaping keeps every element in order and their number; exactly the two-dimensional projection weights become four-dimensional |
| `ControlNetKeys.ReshapedIff` | tools/convert_sdxl_controlnet.py:249-256 | a tensor is reshaped if and only if it has two dimensions and its new name ends in .proj_in.weight or .proj_out.weight |
| `ControlNetKeys.ConvertAll` | tools/convert_sdxl_controlnet.py:243-257 | the loop stops exactly when some name raises; otherwise it gives the tensors, dropped names and reshaped names of all keys in order |
| `ControlNetKeys.LastWriterWins` | tools/convert_sdxl_controlnet.py:243-257 | for any keys, the tensor under a new name is that of the last key mapped to it |
| `ControlNetKeys.TensorsHaveWriters` | tools/convert_sdxl_controlnet.py:243-257 | every output tensor comes from some key |
| `ControlNetKeys.NothingOverwrittenIff` | tools/convert_sdxl_controlnet.py:243-270 | for all keys of which none raises, tensors and unmapped names add up to the keys if and only if no two keys get the same new name |
| `ControlNetKeys.NoClashKeepsAll` | tools/convert_sdxl_controlnet.py:243-257 | then every converted key's tensor is in the output under its new name |
| `ControlNetKeys.NothingLost` | tools/convert_sdxl_controlnet.py:243-270 | on distinct well-formed names nothing is overwritten: each key's tensor is in the output under its new name or the key is reported as unmapped, and the two counts add up to the input |

## Left out

- ONNX Runtime and stable-diffusion.cpp: the network is an arbitrary function on planar images; session construction and `SdSession` are not part of this model.
- The Nuke NDK: knobs, viewer refresh, `invalidate`, `asapUpdate`, `aborted()`, Op hashing. Upstream hashes are given 64-bit values.
- User interface scripts, presets, dialogs, library loading, packaging and installation.
- File-system error codes, directory creation, iteration order beyond "some order", and drift of the clock conversion in `prune`: a directory is a map from names to bytes or times whose operations may fail.
- C++ weak memory ordering and failure to create a thread: atomics are sequentially consistent and spawning succeeds.
- Progress values and status texts of the worker, and calls to `cancel` from threads other than the main one.
- Floating-point rounding: resizing, scaling and thresholds are over the reals; in keys and files floats are raw bits.
- SHA-256 collision resistance: what is proved of keys is proved of the stream before hashing. FIPS 180-4 covers messages below 2^64 bits; the model's length field is modulo 2^64 as in the code, so the two agree there.
- The contents of the hasher's carry buffer after `reset`, which the code clears and nothing reads.
- `std::stof` itself: the LoRA parser is modelled for every function in its place, and plain decimals over the reals are one.
- Python's `int()` on non-ASCII digits and white space.
- AIGenerate's engine, bake and poll: they compare dimensions rather than keys and ignore whether the worker accepted the task. Its effective-path resolution and seed choice are inputs here.
- The rest of `AiCache` (`has`, lookup, sidecar writing, `clear`), which is single-branch file access.
- The converter's command line, metadata and file formats.
- Overlapping source and destination buffers in the tiler: sources are values.
- AiCache.SortNewestFirst: stands for std::sort by an insertion sort; only the order and the contents are used, not how ties fall.
- SmartFillServing.DoneBakeServedIffCold: between launch and validation the knobs stay, the cache is not cleared, no byte is lost at close and nobody else writes or deletes the bake's own file, since any of these can take the image away; `SmartFillServing.DonePollServesIffCold` asks none of this of the session, only that the file is intact when the bake is polled.
- SmartFillOp.AISmartFill.StartBake: the pixels captured for the task are not modelled, since what is served is the image the task wrote, whatever it computed.
- SmartFill.EngineShowsCurrentBake: takes a write as one act, which `SmartFillWrites` justifies as long as no writer opens a temporary file that another one holds open; `ImageMixing` proves that otherwise a reader can get an image of no bake.
- Renaming or removing a file that another writer has open, as POSIX systems allow it: `ImageOverlap` takes it to fail, as on Windows, for which the plug-in is built.
- Inpaint.InpaintImage: a throwing call is an ending value; the network throwing on its own is the wrong-shape ending.
