# A verified model of sandroid's stateful core

sandroid recognizes intents in telephone speech. This project models the parts of it that keep state
or recurse, and proves what they promise:

- `Segmenter`, `Silero`, `SileroAudio`, `SileroOutcomes`: the voice-activity segmenter, a three-state machine with pre-roll, trailing
  silence and force cuts, and its two drivers. The segmenter's class is proved against a reference
  that looks only at the frame history; the incremental driver against the whole-buffer one.
- `Jitter`, `JitterRuns`: the RTP reorder buffer on 16-bit wrapping sequence numbers (section 5.1 of
  RFC 3550, compared as in section 3.2 of RFC 1982), proved against a buffer over unbounded indices.
- `Scene`, `Loader`, `Paths`, `Scope`, `ScopeWalks`, `ScopePool`, `ScopeEnds`: the category tree, its loader, its
  paths, and the candidate pool of a scene. The pool is described by the walks that a search takes: down to a child,
  or across to the ENUM a node extends.
- `Turn`, `Stream`, `StreamReplies`, `StreamOutputs`, `TurnContext`: a WebSocket connection. One receive loop and, per turn, a pump, a
  fan-out, an event task and a finalizer, as a machine whose steps interleave in any order and whose
  history records what was accepted, queued and sent.
- `BigEndian`, `Utf8`, `Cbor`, `CborRoundTrip`, `CborWriter`: the CBOR subset and the frames of the
  UniMRCP bridge, as the Python side reads and writes them and as the C plugin writes them into a
  fixed buffer.
- `Bridge`, `BridgeReplies`, `Plugin`, `PluginUtterances`, `Product`: the two state machines of that bridge, and both joined by a byte
  stream that may be cut off anywhere.
- `Text`, `Splitting`, `Mrcp`, `MrcpReader`, `MrcpRoundTrip`: MRCPv2 events, written with a message
  length that counts its own digits and read back by length.

`dafny verify dfyconfig.toml` checks everything.

## How it is built

Code that changes things in place is a class or a method with loops, proved equal to a specification
function; the main results are lemmas about that function over every input or every run. A run is a
sequence of inputs, callbacks or task steps, folded from its last element.

The concurrent part is a transition system. A task step is what a task does between two awaits. A
send is two steps, so a frame may be under way while other tasks move; the history records where it
begins. A task that was asked to stop takes no further step of its own: the request arrives at the
await where it is suspended, and is passed on to whatever it is waiting for, as asyncio does.

## Results that need a condition

- The drivers of the detector need not find the same spans in PCM of odd length.
  `SileroOutcomes.SpansAgreeIff` gives the exact condition on the bytes.
- `scope` does not end on every tree the loader accepts. `ScopeEnds.AcceptedYetEndless` exhibits one.
  `FindScope` therefore asks for a ranking of the ENUMs that the search from its scene enters, and
  `ScopeEnds.SceneRankingIffEnds` shows that one exists exactly when that search ends.
- A path resolves back only if no name on it is empty or contains the arrow (`Paths.PathRoundTripIff`).
- The plugin's frames follow the protocol in any order of callbacks except one: opening the channel
  again in the middle of an utterance. The flag that says START was sent survives the old connection,
  so the new one would get AUDIO without START (`Plugin.ReopeningMisorders`). `Plugin.SafeToOpenIff`
  shows that the flags checked at that moment decide it.

## Where the code and its documentation disagree

The model follows the code.

- docs/mrcp-bridge-protocol.md (lines 26 and 113) promises an ERROR with FRAME_TOO_LARGE; `read_frame` raises
  an exception nobody catches, so the connection closes without an answer.
- The same document gives BAD_START for a missing field; the code falls back to defaults. It also
  says the plugin sends a STOP frame when the MRCP client stops; the code sends it on channel close only.
- docs/ws-protocol.md promises one final and one result in every turn (lines 132 and 140), and only in
  successful ones further down (line 171). The code keeps the latter: a turn without speech has no
  final, and one whose recognition request is refused has a final and then an error. Audio after a
  final is said to be dropped (line 174); the code goes on queueing and mirroring it.

## Model

| member | source | states |
|---|---|---|
| Segmenter.SegmentAggregator.constructor | src/sandroid/vad/segmenter.py:56-81 | the frame counts come from the durations by floor division, at least 1; nothing is open |
| Segmenter.SegmentAggregator.Feed | src/sandroid/vad/segmenter.py:87-99 | state and output are those of a reference that keeps no counters or buffers and reads the whole frame history |
| Segmenter.SegmentAggregator.Flush | src/sandroid/vad/segmenter.py:101-107 | an open stretch is closed where it stands; a quiet one is left alone |
| Segmenter.SegmentAggregator.HandleSilent | src/sandroid/vad/segmenter.py:109-127 | a stretch opens exactly when the history ends in a full run of speech frames since the last close |
| Segmenter.SegmentAggregator.StartSpeaking | src/sandroid/vad/segmenter.py:116-127 | the stretch starts at the first frame of the run, the pre-roll becomes its PCM, and max(0, start) never clamps |
| Segmenter.SegmentAggregator.HandleSpeaking | src/sandroid/vad/segmenter.py:129-136 | the frame joins the stretch, which closes here only when one silent frame is already a full run |
| Segmenter.SegmentAggregator.HandleTrailing | src/sandroid/vad/segmenter.py:138-146 | the stretch closes exactly when it ends in a full run of non-speech frames |
| Segmenter.SegmentAggregator.MaybeForceCut | src/sandroid/vad/segmenter.py:148-158 | a stretch that reached the limit is cut and a new one opens at the same frame |
| Segmenter.SegmentAggregator.CloseSegment | src/sandroid/vad/segmenter.py:160-162 | closing hands out the stretch and leaves the segmenter quiet |
| Segmenter.SegmentAggregator.EmitSegment | src/sandroid/vad/segmenter.py:164-183 | the segment is the PCM and the times of the stretch, and is suppressed when too short or without bytes |
| Segmenter.EveryRunIsSound | src/sandroid/vad/segmenter.py:87-183 | over every run of feeds and flushes: segments are exact slices of the fed frames at multiples of frame_ms, disjoint and ordered, at least the minimum long, one to one with speech_end events; event times never decrease; with a positive limit none is longer than max(start run, limit + one frame - 1) |
| Segmenter.SegmentsNeverOverlap | src/sandroid/vad/segmenter.py:164-183 | of any two segments of a run the earlier ends before the later starts, and no time is negative |
| Segmenter.EventTimesNeverGoBack | src/sandroid/vad/segmenter.py:125-127 | of any two events of a run the earlier is not later, and no time is negative |
| Segmenter.NoBoundaryIsMissed | src/sandroid/vad/segmenter.py:109-146 | on every run no quiet stretch contains a full run of speech frames and no open stretch a full run of non-speech frames |
| Segmenter.QuietFeed | src/sandroid/vad/segmenter.py:109-127 | on every run, a feed while nothing is open opens a stretch exactly when the last start frames since the last close are all speech, at the first of them and with its event; it is cut at once only when the run alone reaches the limit |
| Segmenter.OpenFeed | src/sandroid/vad/segmenter.py:129-183 | on every run, a feed into an open stretch closes it exactly when its last silence frames are all non-speech, and otherwise cuts it exactly at the limit; what ends hands out its segment and speech_end exactly when it holds bytes and is long enough, and nothing else hands out anything |
| Segmenter.FlushEnds | src/sandroid/vad/segmenter.py:101-107 | on every run, a flush ends an open stretch in the same way, and does nothing to a quiet one |
| Segmenter.PcmJoins | src/sandroid/vad/segmenter.py:120-124 | the bytes of frames in a row are those of each frame, joined |
| Segmenter.ConfigureFits | src/sandroid/vad/segmenter.py:70-74 | the frame counts are the whole frames that fit in the durations, but at least one |
| Silero.InputsAgreeIff | src/sandroid/vad/silero.py:81-175 | the two drivers hand the network and the segmenter the same frames and windows exactly when the PCM has even length, or ends in a zero byte that does not open a window of its own |
| Silero.OneMoreInput | src/sandroid/vad/silero.py:110-131 | one more window advances the recurrent state, the verdicts and the segmenter together |
| Silero.Detect | src/sandroid/vad/silero.py:104-131 | the spans are those of the segmenter fed the padded windows with the network's verdicts; other sample rates are refused |
| Silero.Drain | src/sandroid/vad/silero.py:161-168 | the inner loop consumes exactly the whole windows that have arrived and keeps the remainder |
| Silero.DriveStream | src/sandroid/vad/silero.py:149-175 | for any chunking, odd sizes included, the outputs are those of the segmenter fed the concatenation's blocks and its padded tail |
| Silero.StreamEvents | src/sandroid/vad/silero.py:133-139 | the events of that run, flattened in order |
| Silero.StreamSegments | src/sandroid/vad/silero.py:141-147 | the segments of that run, flattened in order |
| Silero.StreamFindsWhatDetectFinds | src/sandroid/vad/silero.py:104-175 | for every even-length PCM, and every other agreeable one, the stream finds the spans that the whole-buffer driver finds, however the PCM was cut |
| SileroOutcomes.SpansAgreeIff | src/sandroid/vad/silero.py:104-175 | the drivers find the same spans on every network exactly when the PCM has even length, or ends in a zero byte that opens no window, or is shorter than the eight full windows before the one that could open a segment |
| SileroOutcomes.SomeNetworkTells | src/sandroid/vad/silero.py:104-175 | for any other PCM there is a network on which the stream finds one span and the whole-buffer driver none |
| Silero.EventAndSegmentStreamsAgree | src/sandroid/vad/silero.py:133-147 | an event stream and a segment stream over the same bytes, cut differently, agree on every speech_end time |
| SileroAudio.SamplesAreHeard | src/sandroid/vad/silero.py:81-86 | the little-endian two's complement bytes of any list of 16-bit samples, with or without a dangling byte, are heard as each sample divided by 32768, in order |
| SileroAudio.InputsAreWindows | src/sandroid/vad/silero.py:88-131 | both drivers hand the network the samples 512 at a time, in order, zeros after the last, and the segmenter the bytes of the same samples |
| SileroAudio.SpansAreOrdered | src/sandroid/vad/silero.py:104-131 | whatever the network says, spans are ordered and disjoint, lie inside the PCM, begin and end on frames and last 256 to 30016 ms |
| Jitter.LessMeansBehind | src/sandroid/adapters/mrcp/rtp.py:157-160 | the wrapped comparison says exactly that the nearest unwrapped index lies before the awaited one |
| Jitter.JitterBuffer.Push | src/sandroid/adapters/mrcp/rtp.py:98-127 | a push does in 16-bit numbers what a buffer over unbounded indices does: store or drop, drain, and give up the gap on overflow |
| Jitter.JitterBuffer.DrainRun | src/sandroid/adapters/mrcp/rtp.py:115-117 | the drain loop ends and hands out the consecutive run at the awaited index |
| Jitter.JitterBuffer.Flush | src/sandroid/adapters/mrcp/rtp.py:129-137 | what is left leaves by increasing unwrapped index |
| Jitter.StoreMirrors | src/sandroid/adapters/mrcp/rtp.py:109-111 | keys stay at forward distance 0 to 0x8000 from the awaited number, so no two stored indices share a wrapped key |
| Jitter.JumpMirrors | src/sandroid/adapters/mrcp/rtp.py:121-124 | the nearest wrapped key after a gap is the least unwrapped index |
| Jitter.SortedIsAscending | src/sandroid/adapters/mrcp/rtp.py:134-135 | sorting the wrapped keys by forward distance sorts the unwrapped indices |
| JitterRuns.PushBounds | src/sandroid/adapters/mrcp/rtp.py:121-127 | the buffer never exceeds its capacity after a push |
| JitterRuns.EveryRunConserves | src/sandroid/adapters/mrcp/rtp.py:98-127 | over every run of pushes, across any number of wraps, emitted indices strictly increase and emitted plus stored is exactly the last payload stored for each accepted index |
| JitterRuns.FlushCompletes | src/sandroid/adapters/mrcp/rtp.py:98-137 | a run closed by a flush hands out each accepted index exactly once, in index order, with its last payload |
| JitterRuns.EverythingRises | src/sandroid/adapters/mrcp/rtp.py:98-137 | of any two payloads handed out by a closed run the earlier has the lower index |
| JitterRuns.Collect | src/sandroid/adapters/mrcp/server.py:198-228 | over the well-formed packets received before the sentinel, the loop returns what the pushes and the closing flush hand out, before the byte swap |
| JitterRuns.TameArrivalsAllLeaveInOrder | src/sandroid/adapters/mrcp/rtp.py:98-127 | packets that fill an index range, lowest first, without repeats, at most 0x8000 ahead of the first missing index and with at most capacity waiting beyond a gap, all leave in index order from the pushes alone |
| Loader.BuildTree | src/sandroid/core/scene_loader.py:63-81 | the loader accepts exactly the entries with distinct ids whose tree is acceptable, returns that tree, and otherwise names a fault the entries have |
| Loader.TreeHoldsEntries | src/sandroid/core/scene_loader.py:84-138 | the tree that is returned holds each entry once, with its name, parent, mode, extends pointer and intents, and as children the entries that point at it, in the order of declaration |
| Scene.StructureOkIff | src/sandroid/core/scene_loader.py:162-196 | mode by mode: no special intents in STANDARD, ENUM and MEMORY, at least one in the others, no ordinary ones in BRANCHING, at most one child of a SEQUENTIAL and none of a MEMORY |
| Loader.IndexEntries | src/sandroid/core/scene_loader.py:64-71 | the entries are indexed by id; otherwise the id of the first entry that repeats an earlier one is reported |
| Loader.WireChildren | src/sandroid/core/scene_loader.py:113-138 | succeeds exactly when the parent pointers form a tree rooted at root_id; child lists are then their inverse in declaration order; a cycle is never reported as one |
| Loader.AppendChildren | src/sandroid/core/scene_loader.py:120-138 | the loop wires every entry, or blames the first one, in declaration order, whose parent pointer is out of place |
| Loader.AssertAcyclic | src/sandroid/core/scene_loader.py:141-159 | the search ends on every input; on wired categories its cycle branch is dead and the orphans are exactly the categories that do not climb to the root |
| Loader.WiringInverts | src/sandroid/core/scene_loader.py:132-136 | wired child lists are exactly the inverse of the parent pointers, without repeats |
| Loader.ValidateStructuralRules | src/sandroid/core/scene_loader.py:162-196 | finds a fault exactly when some category breaks its mode's content rules |
| Loader.ValidateUniqueNames | src/sandroid/core/scene_loader.py:199-209 | finds a fault exactly when two siblings share a name |
| Loader.AssertUnique | src/sandroid/core/scene_loader.py:212-220 | true exactly when no name repeats |
| Loader.ValidateExtendsEnum | src/sandroid/core/scene_loader.py:223-246 | finds a fault exactly when an extends pointer has no ENUM target or stands on an ENUM |
| Paths.PathOf | src/sandroid/core/domain.py:233-240 | climbing ends at the root and prints the names from there down |
| Paths.ResolvePath | src/sandroid/core/domain.py:242-256 | descending by name, with each of the source's error cases |
| Paths.ResolvesIff | src/sandroid/core/domain.py:242-256 | on every accepted tree a path resolves to a category exactly when its parts are the names from the root down to it |
| Paths.WhyUnresolved | src/sandroid/core/domain.py:242-256 | on every accepted tree a path fails because it has no parts, because it does not start at the root, or at the first part that names no child; never by a name collision |
| Paths.PathRoundTripIff | src/sandroid/core/domain.py:233-256 | on every accepted tree a category's path resolves back to it exactly when no name on it is empty or contains the arrow |
| Paths.PathsDiffer | src/sandroid/core/domain.py:233-240 | with such names different categories have different paths |
| Scope.FindScope | src/sandroid/core/scope.py:33-66 | the pool is ScenePool over the search's walks, which PoolIsWhatIsFound and PoolIsUnique describe intent by intent, given a ranking of the ENUMs the search enters; unknown and ENUM scenes are refused |
| Scope.CollectViaAncestorView | src/sandroid/core/scope.py:84-125 | an ancestor's view gathers what the ends of its walks show, one walk after the other; the recursion ends by (ENUM rank, height) |
| Scope.CollectKids | src/sandroid/core/scope.py:105-115 | the loop over children gathers their views in order |
| Scope.CollectEnumSubtree | src/sandroid/core/scope.py:128-140 | an ENUM is viewed without a depth budget; anything else is refused |
| ScopeWalks.SceneWalksAreComplete | src/sandroid/core/scope.py:33-125 | the list behind the pool contains exactly the walks a search takes: child edges within budget through penetrable nodes, and extends pointers of the scene and of exposing nodes |
| ScopeWalks.SceneWalksAreOrdered | src/sandroid/core/scope.py:47-66 | the walks come in depth-first order, and none occurs twice |
| ScopeWalks.SceneFollowsIff | src/sandroid/core/scope.py:33-125 | the walks of a search, mode by mode: down from a STANDARD, DRILLDOWN or BRANCHING scene, further down through STANDARD, DRILLDOWN and ENUM nodes, across from the scene and from every node but a MEMORY, and below a BRANCHING scene no deeper than its children |
| ScopePool.PoolIsWhatIsFound | src/sandroid/core/scope.py:33-125 | the pool consists of the scene's own ordinary intents and, at the end of every other walk, the intents whose kind the mode there exposes; each once per walk, in the order of the walks, ordinary before special, each kind as listed |
| ScopePool.PoolIsUnique | src/sandroid/core/scope.py:33-125 | no other list fits that description |
| ScopePool.InPoolIff | src/sandroid/core/scope.py:33-125 | an intent is in the pool exactly when the scene lists it as ordinary or some other walk ends at a category that lists it and whose mode exposes its kind |
| ScopeEnds.SceneRankingIffEnds | src/sandroid/core/scope.py:33-140 | for every scene of an accepted tree, the ranking that FindScope asks for exists exactly when the walks of its search are bounded, so exactly when the recursion ends |
| ScopeEnds.ViewRankingIffEnds | src/sandroid/core/scope.py:84-140 | an ENUM can be ranked exactly when the walks of its view are bounded |
| ScopeEnds.RankBoundsWalks | src/sandroid/core/scope.py:84-140 | a walk is no longer than the height of its start plus one tree height for each rank below the limit |
| ScopeEnds.PlainEnumsRank | src/sandroid/core/scope.py:117-123 | where nothing below an ENUM extends anything, every scene has a ranking, so every search ends |
| ScopeEnds.AcceptedYetEndless | src/sandroid/core/scene_loader.py:223-246 | the loader accepts a STANDARD category below the ENUM it extends; the walks of the search from the root have no bound, and no ranking exists |
| Turn.StageIffOrder | src/sandroid/api/routes.py:300-473 | the stages accept exactly the outputs (speech events)(partials)(final)?(result or error)?, in which a result, UNKNOWN_SCENE or INVALID_REQUEST follows a final that is not blank, and NO_SPEECH a blank one or none |
| Turn.StepKeepsInStep | src/sandroid/api/routes.py:300-473 | every step of a turn's tasks keeps its output in order and in step with where the tasks are |
| Turn.HushedStaysHushed | src/sandroid/api/routes.py:333-343 | once a turn is cancelled and its finalizer asked to stop, no step of it begins a frame |
| Turn.StepKeepsAudio | src/sandroid/api/routes.py:311-330 | no step loses, repeats or reorders queued PCM or touches the mirror |
| Turn.HearsKeepsAudio | src/sandroid/api/routes.py:522-535 | a PCM message joins queue and mirror; the mirror holds everything exactly while it fits under the cap |
| TurnContexts.TurnContext.HandlePcm | src/sandroid/api/routes.py:522-535 | the handler's fields change as the turn machine says |
| TurnContexts.TurnContext.HandleStop | src/sandroid/api/routes.py:537-540 | the end of stream is queued unless the turn is cancelled |
| TurnContexts.TurnContext.Cancel | src/sandroid/api/routes.py:486-492 | cancelling sets the flag, ends the queue and asks an unfinished pump to stop |
| Stream.MoveKeepsInv | src/sandroid/api/routes.py:495-662 | every move of the receive loop or of any task keeps the machine's invariant |
| Stream.FramesInOrder | src/sandroid/api/routes.py:300-473 | in every interleaving the frames of one turn id lie in (speech_start|speech_end)* partial* final? (result|error)?; a result, UNKNOWN_SCENE or INVALID_REQUEST follows a final that is not blank, NO_SPEECH a blank one or none |
| Stream.OnlyTheNewestSpeaks | src/sandroid/api/routes.py:542-613 | accepted ids strictly increase; a frame's send only begins for the id accepted last, and none begins between the moment a newer start is let through and its acceptance |
| Stream.PastTurnsAreAtRest | src/sandroid/api/routes.py:607-616 | when a newer turn is accepted, and when the connection is gone, no task of an older turn is left running |
| Stream.AudioIsKept | src/sandroid/api/routes.py:311-330 | in every run the helpers hear exactly the queued audio in order up to the first end, and the mirror is all the PCM of the turn, or empty once that passed the cap |
| Stream.RequestsCarryAll | src/sandroid/api/routes.py:449-464 | every request handed to the orchestrator carries the final text that was sent and exactly the PCM queued for its turn by then, or none when that had passed the cap |
| Stream.SessionNeverChanges | src/sandroid/api/routes.py:569-577 | once a turn was accepted every later one belongs to the same session |
| StreamOutputs.PossibleIffInOrder | src/sandroid/api/routes.py:300-473 | the frame lists that some run sends for a turn are exactly those in that order |
| StreamReplies.FramesAnswerInputs | src/sandroid/api/routes.py:300-473 | in every run the frames of a turn are, in order, what the inputs its tasks took call for: each detector event, each text, a failure, a blank transcript, and how each recognition ended |
| StreamReplies.AnswersFit | src/sandroid/api/routes.py:444-477 | in every run a turn sends a result iff the orchestrator answered, UNKNOWN_SCENE iff it knew no such scene, INVALID_REQUEST iff it refused the request, NO_SPEECH iff the transcript was blank, ASR_FAILED iff the recognizer failed, and nothing for a crash |
| StreamReplies.SpeechFramesAreDetected | src/sandroid/api/routes.py:331-343 | the speech frames of a turn are, in order, the kinds of the detector events it took |
| StreamReplies.TextFramesAreYielded | src/sandroid/api/routes.py:400-417 | the partial and final frames of a turn are, in order, the texts the recognizer gave |
| StreamReplies.TranscriptIsFinal | src/sandroid/api/routes.py:444-449 | the transcript that is judged is the final text that was sent, or empty if none was |
| StreamReplies.SilentTurns | src/sandroid/api/routes.py:345-376 | a turn that found no segment with audio sends nothing but speech events and NO_SPEECH |
| StreamReplies.StartIsJudged | src/sandroid/api/routes.py:542-613 | a start message is refused as malformed, then for another session, then as stale, and only otherwise is the current turn abandoned; the first two replies end the connection |
| StreamReplies.AcceptedWereAsked | src/sandroid/api/routes.py:542-613 | every turn that is accepted was asked for in a start message with its id, in the session of the connection |
| StreamReplies.FatalStartsAreLast | src/sandroid/api/routes.py:542-613 | after a start that is malformed or of another session no turn is accepted any more, in any continuation of the run |
| Utf8.DecodeIffEncode | src/sandroid/adapters/mrcp/bridge.py:128-161 | strict UTF-8 decoding is exactly the inverse of encoding |
| Utf8.FreeEncodes | src/sandroid/adapters/mrcp/client_sim.py:138-143 | a line break in the encoded bytes is one in the text |
| Cbor.CborDecode | src/sandroid/adapters/mrcp/bridge.py:94-137 | the decoder's loop computes the recursive reading, with clamped slices, both kinds of failure and the consumed length |
| Cbor.CborDecodeEntries | src/sandroid/adapters/mrcp/bridge.py:128-136 | the entry loop fills the dict in order, a repeated key keeping its place |
| Cbor.CborEncodeMap | src/sandroid/adapters/mrcp/bridge.py:140-157 | the encoder succeeds exactly for fewer than 256 encodable entries |
| CborRoundTrip.HeadRoundTrip | src/sandroid/adapters/mrcp/bridge.py:170-184 | every head is read back as its major type and argument |
| CborRoundTrip.HeadIsShortest | src/sandroid/adapters/mrcp/bridge.py:170-184 | no head that is read as the same major type and argument is shorter (section 4.1 of RFC 8949) |
| CborRoundTrip.MapRoundTrip | src/sandroid/adapters/mrcp/bridge.py:94-157 | decoding an encoded map with anything after it gives the map and exactly its length |
| CborRoundTrip.DecodeFaults | src/sandroid/adapters/mrcp/bridge.py:94-137 | empty data, reserved additional information and unsupported major types are refused; a cut-off head and text that is not UTF-8 crash the decoder; numbers and text are accepted |
| CborRoundTrip.MapKeyCrashes | src/sandroid/adapters/mrcp/bridge.py:128-136 | a map whose key is a map crashes the decoder |
| CborRoundTrip.FrameRoundTrip | src/sandroid/adapters/mrcp/bridge.py:190-203 | a frame is read back whole exactly up to 1 MiB of payload, and nothing after it is touched |
| CborRoundTrip.FrameIsEncoded | src/sandroid/adapters/mrcp/bridge.py:190-203 | whatever is read as a frame is the encoding of that frame |
| CborWriter.Writer.Put | native/unimrcp-plugin/src/bridge_client.c:134-140 | all of the bytes or nothing is stored, never past the buffer |
| CborWriter.Writer.WriteHead | native/unimrcp-plugin/src/bridge_client.c:143-168 | the head is written exactly when it fits; when a longer head does not fit the result is 1 and at most three bytes are left |
| CborWriter.Writer.PutBoth | native/unimrcp-plugin/src/bridge_client.c:150-166 | the or of two puts is 1, not negative, when either fails |
| CborWriter.Writer.WriteText | native/unimrcp-plugin/src/bridge_client.c:170-175 | negative exactly when the text item does not fit, although a failed head is not noticed |
| CborWriter.Writer.WriteTextPair | native/unimrcp-plugin/src/bridge_client.c:244-247 | a key and its text succeed exactly when both fit |
| CborWriter.Writer.WriteNumberPair | native/unimrcp-plugin/src/bridge_client.c:246-246 | a number that did not fit goes unnoticed only with at most three bytes left |
| CborWriter.SendStart | native/unimrcp-plugin/src/bridge_client.c:234-256 | the writes are reached exactly when the complete START payload fits in 512 bytes, and are given its frame |
| CborWriter.SameBytes | native/unimrcp-plugin/src/bridge_client.c:143-187 | the C writer and the Python encoder produce the same START bytes |
| CborWriter.StartIsRead | native/unimrcp-plugin/src/bridge_client.c:234-256 | the bridge decodes the plugin's START payload to its four entries, for ids in UTF-8 |
| Bridge.Channel.HandleStart | src/sandroid/adapters/mrcp/bridge.py:423-454 | a START that is no CBOR or no map is refused, one that crashes the decoder closes silently, any other sets the channel up |
| Bridge.Channel.HandleAudio | src/sandroid/adapters/mrcp/bridge.py:456-475 | AUDIO before START is refused; otherwise it is queued, and mirrored up to the cap |
| Bridge.Channel.HandleEos | src/sandroid/adapters/mrcp/bridge.py:477-527 | a first EOS after START answers with the result or the failure; any other is refused |
| Bridge.Channel.Dispatch | src/sandroid/adapters/mrcp/bridge.py:404-421 | frames go to their handlers; STOP closes; unknown types are ignored |
| Bridge.Channel.Handle | src/sandroid/adapters/mrcp/bridge.py:382-402 | the connection loop answers what the frames at the head of the byte stream are served with |
| Bridge.AnswersAreWellFormed | src/sandroid/adapters/mrcp/bridge.py:382-527 | for every frame sequence from any client the answers are nothing, RESULT, ERROR, or RESULT then ERROR; an ERROR closes the connection; INTERNAL is never sent |
| Bridge.AudioIsMirrored | src/sandroid/adapters/mrcp/bridge.py:456-475 | the mirror is the exact concatenation of the audio so far unless its total passed the cap, then empty, and never above the cap; the recognizer is queued every payload |
| BridgeReplies.HistoryIsKept | src/sandroid/adapters/mrcp/bridge.py:404-527 | an open connection knows of its frames exactly whether a START and an EOS came, the AUDIO payloads in order with the end marked, and what the last START said |
| BridgeReplies.NextReply | src/sandroid/adapters/mrcp/bridge.py:404-527 | over every frame sequence, the next reply follows from which kinds came before and how the recognition ended: RESULT with the NLSML, ASR_FAILED or nothing for a first EOS after START; the refusals, and silence, for everything else |
| BridgeReplies.StartSays | src/sandroid/adapters/mrcp/bridge.py:423-454 | an accepted START sets each field to what its map says of it, or to the default, and changes nothing else |
| BridgeReplies.UtteranceIsAnswered | src/sandroid/adapters/mrcp/bridge.py:404-527 | START, any AUDIO and EOS are answered with exactly the RESULT of the recognition, the connection staying open, with exactly ASR_FAILED, or not at all; the recognizer was queued exactly the audio and the end |
| Plugin.RecogChannel.OpenChannel | native/unimrcp-plugin/src/sandroid_recog_engine.c:638-652 | a successful connect gives a new connection and leaves the flags alone |
| Plugin.RecogChannel.ProcessRecognize | native/unimrcp-plugin/src/sandroid_recog_engine.c:286-355 | START is sent once per utterance, and a failed one gives the connection up |
| Plugin.RecogChannel.StreamWrite | native/unimrcp-plugin/src/sandroid_recog_engine.c:528-612 | a pending STOP is answered first; inactivity sends EOS; audio is forwarded between START and EOS |
| Plugin.RecogChannel.SendAudio | native/unimrcp-plugin/src/bridge_client.c:258-275 | empty audio sends nothing, oversized audio fails, a full socket drops the frame |
| Plugin.RecogChannel.CloseChannel | native/unimrcp-plugin/src/sandroid_recog_engine.c:653-669 | closing sends STOP on an open connection |
| Plugin.PhaseIffProtocol | native/unimrcp-plugin/src/sandroid_recog_engine.c:286-669 | the phases accept exactly (START AUDIO* EOS?)? STOP? |
| Plugin.FramesFollowProtocol | native/unimrcp-plugin/src/sandroid_recog_engine.c:286-669 | for callbacks in any order that open no connection in the middle of an utterance, the frames on every connection lie in (START AUDIO* EOS?)? STOP? |
| Plugin.SafeToOpenIff | native/unimrcp-plugin/src/sandroid_recog_engine.c:638-652 | a connection may be opened exactly when no utterance is under way: otherwise some further callbacks break the protocol on it, and nothing else ever does |
| Plugin.ReopeningMisorders | native/unimrcp-plugin/src/sandroid_recog_engine.c:638-652 | open, RECOGNIZE, open, audio: AUDIO without START on the second connection |
| PluginUtterances.UtteranceIsSent | native/unimrcp-plugin/src/sandroid_recog_engine.c:286-612 | from an idle channel, RECOGNIZE, callbacks that leave the utterance under way, and inactivity put on the connection START, the delivered non-empty PCM in order, and EOS, and nothing else |
| PluginUtterances.StepFailsIff | native/unimrcp-plugin/src/sandroid_recog_engine.c:528-652 | a connection is given up exactly by a failed connect, START, AUDIO or EOS, or by closing |
| PluginUtterances.CannedIffFailed | native/unimrcp-plugin/src/sandroid_recog_engine.c:286-652 | over every run, the channel falls back to the canned result exactly when one of them failed |
| Product.StartStarts | src/sandroid/adapters/mrcp/bridge.py:423-454 | the plugin's START sets the bridge's channel up with exactly its ids, rate and codec |
| Product.ServedKeeps | src/sandroid/adapters/mrcp/bridge.py:404-527 | frames in protocol order bring the bridge through the matching phases |
| Product.CutOffAnywhere | src/sandroid/adapters/mrcp/bridge.py:190-203 | however much of the bytes of a frame list arrives, what is read is a prefix of the list, and all of it when all arrives |
| Product.ProductIsQuiet | src/sandroid/adapters/mrcp/bridge.py:382-527 | in every such run of the plugin, on every connection and for every prefix of its bytes, the bridge answers nothing, one RESULT, or ASR_FAILED; never UNEXPECTED_FRAME or BAD_START |
| Product.StartFrameIsRead | native/unimrcp-plugin/src/bridge_client.c:234-256 | the frame that SendStart hands to its writes is read back as a START frame whose payload the bridge accepts |
| Product.UtteranceIsServed | src/sandroid/adapters/mrcp/bridge.py:382-527 | an utterance from the plugin's callbacks to the bridge's answer: if all its bytes arrive, the answer is exactly the RESULT, ASR_FAILED or nothing, as the recognition ended, the recognizer was queued exactly the delivered PCM, and the channel id and rate are the plugin's |
| Mrcp.Serialize | src/sandroid/adapters/mrcp/messages.py:140-177 | the declared length is the message's size and the least solution of length = base + digits(length), found with at most three candidates |
| Mrcp.SerializeEvent | src/sandroid/adapters/mrcp/messages.py:104-112 | the event's message around its own size |
| Mrcp.CandidateSize | src/sandroid/adapters/mrcp/messages.py:163-177 | the size of a candidate is its base plus the digits of the declared length |
| Mrcp.ThreeAreEnough | src/sandroid/adapters/mrcp/messages.py:172-177 | one of the first three guesses is a solution, whatever the base |
| Mrcp.TwoLengths | src/sandroid/adapters/mrcp/messages.py:172-177 | the equation can have two solutions: 99 and 100 for base 97 |
| MrcpReader.ParseEventFrame | src/sandroid/adapters/mrcp/client_sim.py:135-160 | the head up to the first empty line, decoded and split into five tokens and a dict of headers |
| MrcpReader.RecognizeOnce | src/sandroid/adapters/mrcp/client_sim.py:80-92 | the loop reads events up to the first RECOGNITION-COMPLETE |
| MrcpRoundTrip.ParsesFrame | src/sandroid/adapters/mrcp/client_sim.py:135-160 | a serialized event is parsed back with the header the writer added |
| MrcpRoundTrip.ReadsMessage | src/sandroid/adapters/mrcp/client_sim.py:125-132 | exactly the bytes of one serialized event are taken off the stream |
| MrcpRoundTrip.EventsRoundTrip | src/sandroid/adapters/mrcp/client_sim.py:80-92 | from concatenated serialized events the client recovers the events up to the first RECOGNITION-COMPLETE, whatever bytes the bodies hold |
| MrcpRoundTrip.EventsComeBack | src/sandroid/adapters/mrcp/client_sim.py:80-92 | those events come back unchanged, except that one with a body and no Content-Length has gained that header, last, and its value parses to the body's size |
| MrcpRoundTrip.CutStreamStarves | src/sandroid/adapters/mrcp/client_sim.py:80-92 | wherever such a stream ends before its first RECOGNITION-COMPLETE is whole, the client fails for the missing bytes, not for a bad message |

## Left out

- Paths.PathOf: asks for a rooted tree, because on parent pointers that form a cycle the source's loop does not end.
- Scope.FindScope: asks for a ranking of the ENUMs its search enters, as discussed above; without one the recursion does not end.
- Mrcp.Serialize: does not model tokens with a percent sign, which the source would take for a format.
- Mrcp.SerializeEvent: the same.
- MrcpReader.ParseEventFrame: the same as for the next line.
- MrcpReader.RecognizeOnce: `int` accepts underscores, surrounding white space and other scripts' digits; the model reads ASCII digits with an optional sign.
- Cbor.CborDecode: does not model Python's recursion limit, so maps nested about a thousand deep decode here and crash there.
- Bridge.Channel.HandleStart: channel fields keep the decoded value where the source keeps its `str`.
- Jitter.JitterBuffer.Push: capacity is a natural number; a negative one would make the first push raise.
- Loader.WireChildren: child lists are wired in a map of values that the method reassigns, not in shared objects.
- Stream.MoveKeepsInv: the receive loop and the tasks are steps on values, because their methods suspend at awaits; aliasing of the context between tasks is not modelled.
- Stream.FramesInOrder: assumes that recognizers yield nothing after their final text and that the receive loop itself is not cancelled.
- Stream.OnlyTheNewestSpeaks: assumes that the orchestrator does not swallow a cancellation.
- Plugin.FramesFollowProtocol: callbacks are atomic here. `stream_write` runs on the media thread and `msg_process` on the engine task, so races on the channel's fields are outside the model.
- JitterRuns.Collect: malformed datagrams, which the source skips, the byte swap of the payloads and the wait for the sentinel byte, without which the source does not flush.
- Product.ProductIsQuiet: assumes that each frame is written whole or not at all; `sbr_send_audio` may give up in the middle of one.
- Progress and deadlock of the turn machine: the source suppresses cancellation while it joins helpers, so they depend on asyncio's delivery.
- Lone surrogates in Python strings: a Dafny character is a Unicode scalar value.
- The network, wall-clock limits, poll timeouts, sockets and memory pools: sends and receives are steps, and time-outs are outcomes given as parameters.
- The detector's network, ASR, intent matching, fusion and NLSML text: parameters or outcomes.
- RTP header parsing, and the server's own MRCP loop around the jitter buffer.
- The MRCP request serializer and parser of the simulator and the response serializer: easy beside the event codec, and the former writes an extra line break.
- Authentication, metrics, logging, session store, scene registry, YAML and pydantic parsing.
