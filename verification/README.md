# SparkDeck: a verified model of its engines

SparkDeck runs inference servers on a cluster. Most of it is HTTP plumbing; this
project models the self-contained engines in it whose behaviour is hard to see from
one function, and proves what they are for.

| engine | source | modules |
|---|---|---|
| Responses adapter: chat completions to Responses events, whole and streamed, and back | `sparkdeck/responses.py` | `SseReader`, `SseStutter`, `SseStandard`, `Responses`, `ResponsesStream`, `ResponsesAgreement`, `ResponsesProtocol`, `ResponsesReplay` |
| Prompt admission gate with leases, streams and first-output detection | `sparkdeck/prompt_gate.py` | `PromptGate`, `PromptStream`, `PromptRequests`, `OutputDetector` |
| Env-file editor | `sparkdeck/envfile_settings.py` | `EnvText`, `EnvLines`, `EnvFile`, `EnvShell`, `EnvCommutes`, `EnvBinding` |
| Prefix-affinity table | `sparkdeck/prefix_affinity.py` | `PrefixAffinity`, `PrefixLaw`, `PrefixKeys`, `JsonText`, `PrefixLookup` |
| Patch-build coordination over a lossy network | `sparkdeck/image_patch_jobs.py` | `PatchJobs`, `PatchProtocol` |
| Disk scan and its polled change feed | `disk_manager.py` | `DiskScan`, `DiskTree`, `DiskInventory`, `DiskPoll` |
| Interval union and percentile | `mcp_server.py` | `IntervalUnion` |
| Download token bucket | `sparkdeck/download_throttle.py` | `TokenBucket` |
| Token accounting of the live history | `sparkdeck/live_metrics.py` | `LiveMetrics` |
| Generation-checked node probes | `cluster.py` | `NodeProbes` |

`Wrappers`, `Seqs` and `PyText` hold what they share: option and result types, facts
about sequences, and the Python string methods.

Code that works by updating fields is a class here whose methods are proved against
functions of the old state; the theorems are about those functions, over all inputs
or all runs. Concurrent code is a state machine over the atomic sections between
awaits, and its theorems hold for every sequence of events. Clock readings, decoded
JSON, generated identifiers, cancellation and the network are parameters or events.

`dafny verify dfyconfig.toml` verifies the whole project.

## Where the code does less than it seems to promise

- **CR CR LF in an event stream.** The reader normalises its buffer again with every
  chunk, so CR CR LF cut behind its last character becomes one line feed, and otherwise
  CR and a line feed. `SseReader.NormalisationIsChunkingInvariantIff` gives the exact
  condition, and `SseStutter.StutteredDataShows` where it shows in the payloads.
- **Event-stream lines.** The reader strips all leading white space of a value, ignores
  a bare `data` line, does not end a line at a lone CR and yields an event that the end
  of the upstream cuts off (`SseStandard.LineAgreesIff`, `SseStandard.LinesAgreeIff`).
- **Messages with text and refusal.** Streamed they are aborted or keep one kind;
  translated whole they have two items. `ResponsesAgreement.StreamingIsWhole` gives the
  exact condition, `ResponsesAgreement.MixedIsAborted` an input.
- **Chunks behind a cancellation.** A queued or dequeued chunk is dropped when the
  cancel event is set (`PromptStream.NothingAfterCancel`, `PromptStream.QueuedChunkIsLost`).
- **Details that a probe was asked for.** They are missing when the status request
  fails and no telemetry is cached (`NodeProbes.ReturnedHasDetailsIff`,
  `NodeProbes.DetailsCanBeMissing`).
- **Edited env values that do not come back.** A value with a single quote, a value in
  front of trailing text that is not a comment, an empty value in front of a comment,
  and a value with a line break other than CR and LF (a form feed or U+2028, say) are
  accepted and written, but parse differently. `EnvText.SurvivesIff` and
  `EnvBinding.EditCommutesExactly` give the exact conditions. The docstring of
  `apply_env_updates` says that unrelated lines stay byte-identical; an unterminated
  last line gets a terminator when lines are appended (`EnvBinding.UntargetedLines`),
  and a deleted last line leaves a blank one.
- **Replayed tool names.** Restoring a namespace walks the whole tool list, so a name
  whose bare form is the flattened name of a later namespaced tool is restored twice
  (`ResponsesReplay.NameSurvivesIff`).
- **At most one build.** It holds up to the history cap of 100 jobs and no further
  (`PatchJobs.CreatesIff`, `PatchProtocol.AtMostOnce`,
  `PatchProtocol.DelayedCopyBuildsAgain`).
- **Dropped detector text.** An unfinished line above 1 MiB is forgotten at the end of
  a chunk; `OutputDetector.FirstHitIff` says what is then detected.

## Model

| member | source | states |
|---|---|---|
| SseReader.SsePayloads | sparkdeck/responses.py:245-260 | The generator, chunk loop and inner frame loop, yields exactly the payloads of the fold `Read` over the chunks. |
| SseReader.FeedAllIsCut | sparkdeck/responses.py:248-256 | After any chunks, what has been framed and what is still buffered is what cutting the once-normalised concatenation gives, even when a chunk ends inside a CR LF, a blank line or a frame. |
| SseReader.ChunkingInvariant | sparkdeck/responses.py:245-260 | The payloads depend only on the concatenated text, for all text in which no CR LF is itself preceded by a CR (in particular when every CR is directly followed by its LF). |
| SseReader.NormalisationIsChunkingInvariantIff | sparkdeck/responses.py:249-250 | The exact condition: the text that the reader takes in is the once-normalised text for every chunking if and only if the text has no CR CR LF; a cut behind one normalises twice. |
| SseStutter.StutteredDataShows | sparkdeck/responses.py:245-260 | Where that shows in the payloads: a non-empty data line whose end is CR CR LF, the first in the text, in a frame that is terminated later, yields different payloads when the text is cut behind it and when it is not, whatever comes before and behind. |
| SseStutter.StutteredExample | sparkdeck/responses.py:249-250 | For example the chunks `data: a` CR CR LF and LF against the same text in one chunk. |
| SseReader.PayloadsAreInterpreted | sparkdeck/responses.py:251-260 | The yielded payloads are those of a line-by-line interpreter (a blank line dispatches the pending data lines, left-stripped, unless their data is empty), with a blank line implied at the end of the upstream. |
| SseStandard.LinesAgreeIff | sparkdeck/responses.py:249-252 | The reader cuts a text into the lines of section 9.2.5 of the WHATWG HTML Living Standard if and only if no CR stands alone. |
| SseStandard.LineAgreesIff | sparkdeck/responses.py:252-254 | A line has the same data for the reader and for section 9.2.6 of the standard if and only if it is not a bare `data` and at most one white-space character, a space, leads its value. |
| SseStandard.PayloadsAreEvents | sparkdeck/responses.py:245-260 | For text whose lines all agree the reader yields exactly the non-empty data of the events that the standard dispatches, with a blank line implied at the end of the upstream. |
| Responses.FlatTools | sparkdeck/responses.py:16-27 | The loop succeeds exactly when every name of the expanded tool list is present and no two are equal, and then returns that expansion. |
| Responses.ExpandComesFrom | sparkdeck/responses.py:16-27 | The expansion has one tool for each entry and each namespace child: a single tool as it is, a child named by its namespace, two underscores and its own name, a namespace without a name as one tool without a name. |
| Responses.FromChatResponse | sparkdeck/responses.py:207-239 | The loop over tool calls gives the same response or error as the translation `FromChat`, of which the agreement, protocol and replay theorems speak. |
| Responses.ChatOutcome | sparkdeck/responses.py:207-239 | When the whole translation fails: malformed, no choices, no finish reason, or a custom call that does not decode and was not cut off by the token limit; an upstream error is a failed response with that error. |
| Responses.ResponseFields | sparkdeck/responses.py:165-239 | Field by field: incomplete exactly for length and content_filter, with its reason; every usage count in its own field, 0 where it is missing, and a missing total the sum of input and output. |
| Responses.CallBecomes | sparkdeck/responses.py:182-204 | A call is custom exactly if the table has a custom tool of its name; its input is what its arguments decode to, or the cut-off text of an incomplete one; a function call keeps its arguments; a missing id is generated. |
| ResponsesStream.StreamAdapter.Run | sparkdeck/responses.py:263-356 | The adapter that updates response, message, calls and sequence numbers in place emits exactly the events of the fold `Stream`, numbered 0, 1, 2, .... |
| ResponsesAgreement.DictionaryOrder | sparkdeck/responses.py:311-321 | Read in dictionary order, the accumulated calls are, for each index in order of first appearance, the concatenation of that index's fragments. |
| ResponsesAgreement.StreamState | sparkdeck/responses.py:281-321 | A well-formed upstream of one kind, however fragmented, leaves the adapter with the concatenated text, the assembled calls, the last finish reason and the last usage. |
| ResponsesAgreement.PublishIsCallItems | sparkdeck/responses.py:325-339 | Publishing assembled calls yields the items of the whole translation and fails exactly when it does. |
| ResponsesAgreement.MixedIsAborted | sparkdeck/responses.py:299-310 | The failing input: a text delta, then a refusal delta with finish reason stop; the stream is aborted, and the whole translation succeeds with two items. |
| ResponsesAgreement.OneKindIsListed | sparkdeck/responses.py:299-311 | A well-formed upstream with content only lists the concatenated output text as its first item, one with refusal only the concatenated refusal. |
| ResponsesAgreement.StreamingIsWholeByAppearance | sparkdeck/responses.py:182-242 | For every well-formed upstream, however fragmented, and the message that it assembles to, with its calls in order of first appearance: the terminal event carries exactly the response of the whole translation, and is an abort exactly when that raises, if and only if the message does not have both text and refusal, or the whole translation raises. |
| ResponsesAgreement.StreamingIsWhole | sparkdeck/responses.py:182-356 | The same for the calls in index order, when the indices first appear in increasing order. |
| ResponsesAgreement.ChunksToResponse | sparkdeck/responses.py:245-356 | End to end, from text chunks to the terminal event, under the same condition: neither how the text is chunked nor how the message is fragmented shows in the response. |
| ResponsesProtocol.OneTerminalEvent | sparkdeck/responses.py:279-356 | Every run, well formed or not, has two opening events and exactly one terminal event, which is last. |
| ResponsesProtocol.TerminalSays | sparkdeck/responses.py:340-356 | A run that is aborted ends in a failed response with the error upstream_error, one that finishes in a completed or incomplete one without error, with a reason exactly if it is incomplete. |
| ResponsesProtocol.RaisingKeeps | sparkdeck/responses.py:289-321 | What a choice brought before it raised is kept: its text, announced and in the message, and its finish reason. |
| ResponsesProtocol.EveryItemHasItsLife | sparkdeck/responses.py:299-353 | On a run that does not fail, the events about each output index are: one `added` with an empty item, deltas that concatenate to the done value, the done events, and one item-done that equals the item in the terminal response; no other index has events. |
| ResponsesProtocol.EventKindsFit | sparkdeck/responses.py:281-356 | In every run, well formed or not, aborted or not, each delta and done event is about an item that the terminal response lists, and is of its kind: text for output text, refusal for a refusal, arguments for a function call, input for a custom call. |
| ResponsesProtocol.OnPayloadsReads | sparkdeck/responses.py:281-321 | While payloads are read, whatever they are, the events so far are an opening followed by the growing life of at most the message item. |
| ResponsesReplay.ToMessages | sparkdeck/responses.py:82-121 | The loop over input items, which extends its last turn in place, builds exactly the turns of `AddItems`. |
| ResponsesReplay.MessageTurn | sparkdeck/responses.py:41-106 | A message adds exactly one turn, part by part what its content says, in the role of its item, a developer as the system; it fails exactly for an unknown role, a content that is no text or list, and an unsupported part. |
| ResponsesReplay.ResultTurn | sparkdeck/responses.py:114-116 | A tool result adds exactly one tool turn with its call id and its text, parts one a line; it fails exactly if a part is not text. |
| ResponsesReplay.NameSurvivesIff | sparkdeck/responses.py:34-38 | A call name restored to its namespace and flattened again is the same name if and only if no later namespaced tool is named like the bare name it was restored to. |
| ResponsesReplay.RestoresTo | sparkdeck/responses.py:34-38 | A name that is not chained is restored to the bare name and namespace of the namespaced tool of that name, and any other stays as it is. |
| ResponsesReplay.ChainedRequest | sparkdeck/responses.py:34-38 | An accepted request in which that happens: namespace a with child b__c and then namespace b with child c. |
| ResponsesReplay.ExpandQualifies | sparkdeck/responses.py:16-27 | In the tool table of any accepted request every namespaced tool is named by its namespace and bare name. |
| ResponsesReplay.CallsReplay | sparkdeck/responses.py:98-116 | Sent back behind an assistant turn, the call items of an output join that turn with the same ids, flattened names and arguments, in order. |
| ResponsesReplay.OutputReplays | sparkdeck/responses.py:98-239 | Sending a text-and-tool-calls output back after any history adds exactly one assistant turn with the same text, call ids, flattened names and arguments (custom calls reduced to their input). |
| ResponsesReplay.ExchangeReplays | sparkdeck/responses.py:98-239 | A whole exchange sent back, the output and a result for each of its calls: one assistant turn, and one tool turn a call, in order, each with the id of the call that it answers and its text. |
| ResponsesReplay.CustomInputSurvives | sparkdeck/responses.py:98-116 | The input string of a replayed custom call decodes to the original one. |
| PromptGate.PromptGate.RefreshGate | sparkdeck/prompt_gate.py:61-68 | The loop in refresh admits exactly as the function `Refresh` says, skipping futures that are done. |
| PromptGate.PromptGate.Acquire | sparkdeck/prompt_gate.py:70-75 | An event that is already set aborts without a trace; otherwise a new ticket is queued last and the gate refreshed. |
| PromptGate.PromptGate.ReleaseLease | sparkdeck/prompt_gate.py:47-51 | A lease gives its slot back and refreshes the gate once; a second release changes nothing. |
| PromptGate.PromptGate.AbandonTicket | sparkdeck/prompt_gate.py:90-97 | The exception path of acquire releases a lease that was granted meanwhile, and otherwise leaves the queue. |
| PromptGate.RefreshAdmitsFirst | sparkdeck/prompt_gate.py:61-68 | A refresh admits exactly the first n waiters, where n is how many there are or how many slots max(1, limit) leaves, and touches no other future. |
| PromptGate.RefreshKeeps | sparkdeck/prompt_gate.py:61-68 | A refresh keeps the queue equal to the pending tickets in arrival order and active equal to the unreleased leases, leaves nobody waiting while there is room, and raises active only up to max(1, limit). |
| PromptGate.ReleaseIdempotent | sparkdeck/prompt_gate.py:47-51 | Releasing a lease again, under any limit, changes nothing. |
| PromptRequests.RunIsSafe | sparkdeck/prompt_gate.py:42-124 | In every interleaving of arrivals, grants, cancellations, releases, stream steps and limit changes: active is the number of unreleased leases; nobody is admitted past an earlier waiter; a non-empty queue implies active >= max(1, limit at the last refresh); every request's future fits its phase; the leases given back are exactly the released ones, each once. |
| PromptRequests.RisesWithinBound | sparkdeck/prompt_gate.py:61-68 | No event raises active above max(1, limit). |
| PromptRequests.NeverMoreThanTheLimit | sparkdeck/prompt_gate.py:54-68 | No more requests are in the prompt phase at once than the largest limit that was ever set allows. |
| PromptRequests.NoLostWakeUp | sparkdeck/prompt_gate.py:61-97 | Somebody waits only while some lease is out. |
| PromptRequests.CallbackReleases | sparkdeck/prompt_gate.py:197-198 | In every safe state the done callback of a producer, started or cancelled before its first turn, gives its lease back. |
| PromptRequests.NothingLeaks | sparkdeck/prompt_gate.py:99-124 | When every request has ended, or its stream is over (aclose has joined the producer, or the producer is done and had a turn or its done callback has run), no slot is taken, nobody waits and every granted lease was given back. |
| PromptRequests.RequestsMove | sparkdeck/prompt_gate.py:70-124 | No request is stuck: in acquire it can give up, and go on once granted; running it can return or hand off; cleaning up it gives its lease back; streaming it can step nearer to its end. |
| PromptStream.PromptStream.ReadChunk | sparkdeck/prompt_gate.py:209-215 | The producer takes the next chunk and feeds the detector only while the lease is out. |
| PromptStream.PromptStream.AskForChunk | sparkdeck/prompt_gate.py:226-240 | A call of __anext__ up to its first await: with the cancel event set it closes and returns nothing, whatever is queued; otherwise a queued chunk is returned, a finished producer ends the iteration, and anything else waits. |
| PromptStream.PromptStream.WakeUp | sparkdeck/prompt_gate.py:241-255 | Behind the wait: with the event set a dequeued chunk is dropped; otherwise it is returned, or the queue is looked at once more when the producer ended. |
| PromptStream.PromptStream.BeginClose | sparkdeck/prompt_gate.py:261-268 | aclose cancels the producer unless it is done or already being cancelled. |
| PromptStream.PromptStream.PutChunk | sparkdeck/prompt_gate.py:216-216 | The chunk in hand goes to the empty queue. |
| PromptStream.PromptStream.BeginProducing | sparkdeck/prompt_gate.py:209-213 | The producer starts reading at its first turn. |
| PromptStream.PromptStream.StopReading | sparkdeck/prompt_gate.py:213-219 | An exhausted upstream ends the reading cleanly, one that raises does not. |
| PromptStream.PromptStream.FinishProducing | sparkdeck/prompt_gate.py:213-221 | The end of the closing, finished or interrupted, releases the lease. |
| PromptStream.PromptStream.Finished | sparkdeck/prompt_gate.py:197-198 | The done callback releases, also for a producer that never had a turn. |
| PromptStream.StepKeeps | sparkdeck/prompt_gate.py:185-273 | Every step of producer, consumer and cancellation keeps: delivered + dequeued + queue + in hand + rest is the upstream, with at most one chunk in each place between; while the producer reads, the lease is out exactly until a chunk completes the first output line; a stream that is over has released it, whether or not its producer ever had a turn; nobody cancels the producer but the event and a consumer that leaves. |
| PromptStream.ReleasesIff | sparkdeck/prompt_gate.py:197-273 | The lease is released exactly by the chunk that completes the first output, the end of the closing, the done callback and the end of aclose. |
| PromptStream.CancelEffect | sparkdeck/prompt_gate.py:23-27 | The watcher with the event set, a consumer that leaves, and one that asks or goes on with the event set cancel the producer: at once done if it had no turn, closing otherwise, left alone when done. |
| PromptStream.NothingReadAfter | sparkdeck/prompt_gate.py:209-221 | Once it is closing or done, a producer reads nothing more. |
| PromptStream.DeliveredIsPrefix | sparkdeck/prompt_gate.py:226-255 | The consumer has a prefix of the upstream at all times; an iteration that stops has delivered all of it; one that raises the failure of the upstream, undisturbed, lacks only a queued chunk and what was never read. |
| PromptStream.NothingAfterCancel | sparkdeck/prompt_gate.py:226-246 | Once the cancel event is set nothing more is delivered in any run: lost are exactly the chunks on the way, at most one dequeued, one queued and one in hand, and the unread ones. |
| PromptStream.QueuedChunkIsLost | sparkdeck/prompt_gate.py:226-231 | A run in which a queued chunk is lost that way. |
| PromptStream.NeverStuck | sparkdeck/prompt_gate.py:185-273 | A stream that is not at its end always has an enabled step that brings it nearer. |
| OutputDetector.Detector.FeedChunk | sparkdeck/prompt_gate.py:157-182 | The line loop of feed reports output exactly when the pending text and the chunk contain a complete output line, and keeps what is behind it. |
| OutputDetector.OutputIff | sparkdeck/prompt_gate.py:161-179 | Exactly which lines end the prompt phase: those with a choice that has text, or one of five content fields in its delta, or in its message without a delta; a delta that only names a role does not. |
| OutputDetector.OutputIsALine | sparkdeck/prompt_gate.py:157-160 | A text has output exactly when a part of it, split at line feeds, other than the last carries output; what stays pending is the last part. |
| OutputDetector.CutAnywhere | sparkdeck/prompt_gate.py:157-182 | Cutting a text at any place does not change whether a complete output line is found nor what stays pending. |
| OutputDetector.FirstHitIff | sparkdeck/prompt_gate.py:157-182 | For all chunks, oversized ones included: feed first reports at chunk k exactly when the chunks since the last overflow, up to k, contain a complete output line. |
| OutputDetector.FirstHitIsFirstOutput | sparkdeck/prompt_gate.py:157-182 | While no unfinished line exceeds the cap, feed first reports at chunk k if and only if k is the first index at which the concatenated chunks contain a complete output line. |
| EnvText.SplitValueScan | sparkdeck/envfile_settings.py:91-119 | The scanning loop splits a value and its trailing comment as the function `SplitValue` does. |
| EnvText.DoubleQuotedSplits | sparkdeck/envfile_settings.py:101-115 | A double-quoted value, in which a backslash takes the next character with it, is read as exactly the quoted text, and everything behind its closing quote is the rest. |
| EnvText.EscapedSplits | sparkdeck/envfile_settings.py:101-115 | Any text, with each backslash and double quote escaped, between double quotes is read as a whole. |
| EnvText.DoubleQuoteUnclosed | sparkdeck/envfile_settings.py:106-115 | A double quote that nothing closes takes all of the text. |
| EnvText.SingleQuotedSplits | sparkdeck/envfile_settings.py:101-105 | A single-quoted value ends at the next single quote, or with the text. |
| EnvText.UnquotedSplitsAtComment | sparkdeck/envfile_settings.py:116-119 | An unquoted value holds no white space that a comment sign follows; the rest is empty or a comment, with all of the white space before it. |
| EnvText.SurvivesIff | sparkdeck/envfile_settings.py:91-173 | A submitted value put in front of trailing text is read back as itself if and only if: empty, and the trailing text is blank; bare, and the trailing text is empty or begins a comment; quoted, and it has no single quote. |
| EnvText.KeptValueSplits | sparkdeck/envfile_settings.py:325-331 | A kept value and its comment, written back, split the same way again. |
| EnvLines.BodyIsReadBack | sparkdeck/envfile_settings.py:78-84 | A line written from an indent, marker, export prefix, key and text is matched again with the same parts, active or commented as written. |
| EnvLines.ActiveIff | sparkdeck/envfile_settings.py:78-80 | Exactly the lines of white space, an optional export, a key, blanks, an equals sign and any text match as active, with exactly these parts. |
| EnvLines.CommentedIff | sparkdeck/envfile_settings.py:81-83 | Exactly the lines with a comment sign and blanks in between match as commented, with exactly these parts. |
| EnvLines.SplitJoined | sparkdeck/envfile_settings.py:285-352 | Joining well-formed lines, deleted ones included, and splitting the text again gives the non-empty lines. |
| EnvFile.ParseEnvFile | sparkdeck/envfile_settings.py:127-149 | The parser loop gives the entries of the kept lines with their line numbers. |
| EnvFile.EntryIff | sparkdeck/envfile_settings.py:122-149 | A line is an enabled entry exactly if it is an active assignment, a disabled one exactly if it is only a commented one, with its key and the first part of the text behind the equals sign. |
| EnvFile.NumberedAre | sparkdeck/envfile_settings.py:134-149 | The entries are exactly those of the lines, under their 1-based numbers, in order. |
| EnvFile.ByKeyIsEffective | sparkdeck/envfile_settings.py:288-294 | The by_key table knows every key and maps it to its last active line, or its last commented one when none is active. |
| EnvFile.RewriteLines | sparkdeck/envfile_settings.py:301-347 | The loop that rewrites lines one update at a time gives every line its own update, independent of order, and the appended lines in update order. |
| EnvFile.ApplyEnvUpdates | sparkdeck/envfile_settings.py:264-363 | The whole edit: the limits on updates, values, size and entries, the missing-variable error, and otherwise the joined final lines. |
| EnvShell.EditOutcome | sparkdeck/envfile_settings.py:152-352 | What an edit comes to, refusal by refusal: 128 updates, keys, line breaks and 8 KiB in values, 256 KiB and 512 entries before and behind, a deletion of a key without a line, and otherwise the joined lines. |
| EnvShell.LiteralIsRead | sparkdeck/envfile_settings.py:160-173 | To a shell that sources the file every written value is one word, and that word is the submitted value: nothing in it is expanded, split or executed. |
| EnvShell.TerminatorIsKept | sparkdeck/envfile_settings.py:308-338 | A rewritten line is deleted, or ends in exactly the line breaks that it ended in. |
| EnvShell.AppendedEndAsMost | sparkdeck/envfile_settings.py:276-352 | Appended lines end in CR LF exactly if more than half of the lines do. |
| EnvShell.SizeIsUtf8 | sparkdeck/envfile_settings.py:157-158 | Sizes are those of the UTF-8 encoding of section 4 of RFC 3629. |
| EnvCommutes.EditLineReadBack | sparkdeck/envfile_settings.py:321-338 | An edited line is deleted or still one line, and is read back as the expected entry exactly when its submitted value survives. |
| EnvCommutes.EditCommutesIff | sparkdeck/envfile_settings.py:127-352 | For LF or CR LF text and values without line breaks: parsing the rendered text gives the old entries with each effective one replaced or deleted and the new keys appended, if and only if every submitted value survives in its line. |
| EnvBinding.EditCommutesExactly | sparkdeck/envfile_settings.py:127-352 | The exact condition for all accepted updates: additionally no submitted value has a line break; validation refuses only CR, LF and NUL, but parsing splits at ten characters. |
| EnvBinding.QuoteDoesNotCommute | sparkdeck/envfile_settings.py:127-352 | An accepted edit that does not come back: a new variable whose value is a single quote. |
| EnvBinding.ParsedValuesNoBreak | sparkdeck/envfile_settings.py:139-149 | No value that is ever parsed contains a line break of any kind. |
| EnvBinding.RequestedBindings | sparkdeck/envfile_settings.py:288-347 | After an edit whose values survive, a shell that sources the file finds a set key at its requested value, an enabled key at its kept value, a deleted or disabled key unset unless another line still assigns it, and every other key unchanged. |
| EnvBinding.UntargetedLines | sparkdeck/envfile_settings.py:242-347 | A line that no update addresses is unchanged, but for a terminator that an unterminated last line gets when lines are appended. |
| PrefixAffinity.Table.Expire | sparkdeck/prefix_affinity.py:57-61 | The expiry loop keeps exactly the entries younger than ttl, in order. |
| PrefixAffinity.Table.Lookup | sparkdeck/prefix_affinity.py:63-77 | The lookup loop answers with the strongest allowed live entry and touches it. |
| PrefixAffinity.Table.Remember | sparkdeck/prefix_affinity.py:79-89 | Remembering touches the last key and evicts from the front down to capacity. |
| PrefixAffinity.TableObeysLaw | sparkdeck/prefix_affinity.py:57-89 | After every run with a monotone clock and ttl > 0 the table is exactly the youngest `capacity` of the last touches that are younger than ttl, in last-touch order. |
| PrefixLaw.KnownIff | sparkdeck/prefix_affinity.py:57-89 | Key by key: present if and only if its last touch is younger than ttl at the last expiry reading and fewer than capacity distinct other keys were touched since; it then has that touch's target and time. |
| PrefixLaw.RunKnowsIff | sparkdeck/prefix_affinity.py:57-89 | The same after every run of lookups and remembers. |
| PrefixKeys.KeysOfBody | sparkdeck/prefix_affinity.py:17-55 | The early returns of keys() and its hashing loop give one key a message prefix, with the size as strength only under an assistant turn and from the first conversation message on, and [] in every refused case. |
| PrefixKeys.WhichKeys | sparkdeck/prefix_affinity.py:18-53 | Which bodies get keys, in plain terms, with all limits and roles, and which: each prefix the text of its own context and messages, and as strength its size, if some message is the assistant and the prefix has one of a user, tool or function. |
| PrefixKeys.ObjectTextsDelimit | sparkdeck/prefix_affinity.py:32-38 | Of two JSON object texts neither is a proper prefix of the other. |
| PrefixKeys.FramingInjective | sparkdeck/prefix_affinity.py:32-49 | The hashed text determines the context and the list of messages. |
| JsonText.ObjectIsObjectText | sparkdeck/prefix_affinity.py:32-38 | The compact JSON text of every object, with any strings, numbers, arrays and objects inside, closes first at its own end. |
| JsonText.PromptsFrame | sparkdeck/prefix_affinity.py:32-49 | So for contexts and messages that are JSON objects the hashed text tells them all apart. |
| PrefixLookup.LookupIsLongestServed | sparkdeck/prefix_affinity.py:63-77 | A lookup with a body's keys answers with the longest selectable prefix whose entry is live and allowed, and None exactly when there is none. |
| PrefixLookup.KeysEndWithPrompt | sparkdeck/prefix_affinity.py:79-86 | Remembering a body's keys remembers its whole prompt. |
| PrefixLookup.RunServesPrompts | sparkdeck/prefix_affinity.py:63-89 | Every touch of a run is a touch of a prompt that was remembered. |
| PrefixLookup.RunLookup | sparkdeck/prefix_affinity.py:17-89 | After any run: the answer is the last target of the longest prefix of the body's messages that was served whole under the same scope and context, is young and not crowded out, has a user, tool or function message and an allowed target; None exactly when there is none or the body has no assistant turn. |
| PatchJobs.PatchAgent.StartJob | sparkdeck/image_patch_jobs.py:119-222 | Submitting on an agent: the same id and content returns the existing job, the same id with other content and a second active build are refused, an unsaved job is taken back. |
| PatchJobs.StartReplies | sparkdeck/image_patch_jobs.py:119-222 | The answers: a listed id its job or 400, 400 while a job is unfinished, 500 when the file cannot be saved, none of which changes the jobs; and otherwise the new job, queued in front and saved. |
| PatchJobs.GetReplies | sparkdeck/image_patch_jobs.py:113-118 | A poll is answered with the listed job, or 404 exactly if the id is not among the last 100 creations. |
| PatchJobs.PatchAgent.Advance | sparkdeck/image_patch_jobs.py:410-418 | A status change of the running build is kept in memory even when it cannot be saved. |
| PatchJobs.PatchAgent.WriteFile | sparkdeck/image_patch_jobs.py:56-66 | A delayed older snapshot never overwrites a newer one. |
| PatchJobs.PatchAgent.Reload | sparkdeck/image_patch_jobs.py:35-46 | After a restart the jobs are the saved ones, with interrupted builds failed. |
| PatchJobs.ProgressEffect | sparkdeck/image_patch_jobs.py:410-418 | A status change is of the unfinished job in front, of that only, and reaches the file exactly if it can be written. |
| PatchJobs.RestartEffect | sparkdeck/image_patch_jobs.py:35-46 | A restart fails exactly the saved jobs that were unfinished and keeps the others. |
| PatchJobs.FlushEffect | sparkdeck/image_patch_jobs.py:56-66 | The file is only ever replaced by a snapshot that was taken later. |
| PatchJobs.StartKeeps | sparkdeck/image_patch_jobs.py:135-222 | Submitting keeps: the table in memory, the file and every pending newer snapshot list the latest 100 creations; only the newest job can be active; two creations of one id are more than 100 apart. |
| PatchJobs.CreatesIff | sparkdeck/image_patch_jobs.py:135-222 | The exact law of at most once: on any agent that keeps the invariant a submission creates a job if and only if the file can be saved, no job is running and the id is not among the last 100 creations. |
| PatchJobs.FlushKeeps | sparkdeck/image_patch_jobs.py:48-105 | Background snapshots, written in any order, keep that invariant. |
| PatchJobs.RestartKeeps | sparkdeck/image_patch_jobs.py:35-46 | So does a crash at any point. |
| PatchProtocol.RemoteBuild.Turn | sparkdeck/image_patch_jobs.py:342-408 | One turn of the retry loop: which answers mean success, failure, polling, resubmission or giving up. |
| PatchProtocol.JobDecides | sparkdeck/image_patch_jobs.py:401-407 | After every run: a waiting controller that receives a succeeded job returns its image and the submitted files, a failed one raises, any other keeps it waiting and polling. |
| PatchProtocol.FailureDecides | sparkdeck/image_patch_jobs.py:376-391 | After every run: no answer, 408, 429 and 500 and above keep the controller waiting and polling; 404 under an unaccepted poll makes it submit again; any other status raises. |
| PatchProtocol.BuiltIsReturned | sparkdeck/image_patch_jobs.py:342-408 | After every run: if the agent lists the job as built and the controller waits, its next request, poll or submission, is answered with that job and the call returns the image and the files. |
| PatchProtocol.QuietEvents | sparkdeck/image_patch_jobs.py:359-363 | Running out of time raises; crashes and snapshots change the agent as they should and the controller not at all. |
| PatchProtocol.AtMostOnce | sparkdeck/image_patch_jobs.py:147-222 | In every run with lost, delayed and duplicated requests and replies, crashes and other jobs, two creations of one id have at least 100 others between them. |
| PatchProtocol.ReturnedMeansBuilt | sparkdeck/image_patch_jobs.py:342-408 | If the controller's call returns, it returns the submitted file hashes and the image of a build of exactly this request, under its id, that succeeded on the agent. |
| PatchProtocol.ReturnedMeansBuiltOnce | sparkdeck/image_patch_jobs.py:342-408 | With at most 100 later jobs on the agent that build is the only one of its id, and the image is its image. |
| PatchProtocol.AcceptedOnlyPolls | sparkdeck/image_patch_jobs.py:357-391 | Once the agent has accepted, the controller never submits again. |
| PatchProtocol.CopyCreatesIff | sparkdeck/image_patch_jobs.py:135-222 | The same after every run of the whole system: serving a copy of the submission creates a job if and only if it can be saved, no job is running and the id is not among the last 100 creations. |
| PatchProtocol.DelayedCopyBuildsAgain | sparkdeck/image_patch_jobs.py:212-213 | The history cap is sharp: in the run in which the submission is sent, served and built, 100 other jobs follow, and a delayed copy is served, it is built a second time. |
| DiskScan.Scanner.Walk | disk_manager.py:89-149 | The walk that updates items in place, cancelled at any check, gives the items, total and counts of the update-free inventory; its reported changes always show the entries; every byte of the total was counted as scanned. |
| DiskInventory.InventoryAddsUp | disk_manager.py:52-159 | Cancelled anywhere, the total is the sum of the listed files, and every listed directory has the size of the files listed below it. |
| DiskTree.ScanInTree | disk_manager.py:111-148 | Wherever a scan is cancelled, every listed item is at a node of the tree and has its kind, modification time and, for a file, size; in a whole scan a directory has all bytes that can be read below it. |
| DiskTree.ScanCounts | disk_manager.py:89-149 | A scan that is not cancelled counts exactly the bytes, unreadable nodes and mounts of the readable tree. |
| DiskTree.ScanWithin | disk_manager.py:89-149 | A cancelled one counts every mount that it lists, and no more bytes and unreadable nodes than there are. |
| DiskTree.ScanAsks | disk_manager.py:94-109 | How often a walk asks for cancellation: once a directory that it enters and once before each child, so it is cancelled exactly if the event is set before its last question. |
| DiskInventory.ListsPart | disk_manager.py:89-149 | A cancelled scan lists a prefix of the tree's paths in walk order, and a scan whose event stays unset lists all of them. |
| DiskInventory.ScanDirectory | disk_manager.py:52-159 | The result of a scan: changes that show the entries, entries that are nodes of the tree, scanned size equal to total size equal to the listed files, sizes that add up; uncancelled, all paths and the bytes, errors and mounts of the readable tree; and exactly when it is cancelled. |
| DiskPoll.ScanJob.OnProgress | disk_manager.py:217-237 | Every reported item is appended to the changes; progress without an item adds none. |
| DiskPoll.ScanJob.Poll | disk_manager.py:260-294 | The loop that coalesces a window of changes keeps the newest item of each path and moves the cursor to the end of the window. |
| DiskPoll.CoalescedShowsWindow | disk_manager.py:268-278 | A coalesced window has one item a path and shows what the whole window shows. |
| DiskPoll.ViewIsUpToDate | disk_manager.py:217-294 | For every interleaving of reports and polls the client's folded view shows the changes up to its cursor, and all of them once a reply was complete. |
| DiskPoll.PollsAdvance | disk_manager.py:260-294 | Every poll brings the cursor nearer to the end, and a finished scan is reported complete. |
| DiskPoll.PollMovesBy | disk_manager.py:260-294 | A poll moves the cursor by its limit, at least 1 and at most 10000, but not beyond the changes, and brings at most that many items. |
| DiskPoll.RunReports | disk_manager.py:217-259 | The changes of a job are what was reported before it finished, in order. |
| DiskPoll.CompleteViewIsInventory | disk_manager.py:217-294 | For changes that show the entries: once complete, folding what was sent by path gives exactly those entries. |
| DiskPoll.WatchedScan | disk_manager.py:52-294 | End to end, for every tree and cancellation point and every interleaving of polls with the reports of the scan: a client that has seen the scan complete has exactly the listed entries in its view, nodes of the tree at a prefix of its paths, all of them if not cancelled, with sizes that add up. |
| IntervalUnion.IntervalUnionTicks | mcp_server.py:570-584 | The sort-and-merge total is the number of ticks that the intervals cover. |
| IntervalUnion.CoveredIff | mcp_server.py:571-571 | A tick is covered exactly when some interval contains it. |
| IntervalUnion.OrderDoesNotMatter | mcp_server.py:575-575 | The covered ticks, and so the total, do not depend on the order of the intervals. |
| IntervalUnion.Percentile | mcp_server.py:562-567 | The percentile is the smallest of the values that at least the given part of all values does not exceed; the index is out of range exactly for a part above 1 of a non-empty list. |
| TokenBucket.TokenBucket.Acquire | sparkdeck/download_throttle.py:157-169 | A limited acquire starts its cost at now or at the last due time, whichever is later, and waits until it comes due; an unlimited or empty one does nothing. |
| TokenBucket.TokenBucket.ChangeRate | sparkdeck/download_throttle.py:144-155 | A positive value is the new rate, a non-positive one removes the limit, one that is no number changes nothing. |
| TokenBucket.LogIsDemands | sparkdeck/download_throttle.py:144-169 | From the operations alone: what is reserved is exactly every acquire of a positive count while a limit was set, in order, with its count, time and the rate then in force. |
| TokenBucket.AcquireAfter | sparkdeck/download_throttle.py:157-169 | After any operations a limited acquire is due its cost after now or the last due time; any other waits for nothing and leaves the due time. |
| TokenBucket.RunDueIsGreatest | sparkdeck/download_throttle.py:144-169 | After any run with any rate changes the due time is the greatest, over the limited acquires among the operations, of when one was made plus what it and all later ones cost (and of what all cost, from time 0). |
| TokenBucket.WindowBound | sparkdeck/download_throttle.py:144-169 | The bytes of all limited acquires that come due in any window are at most the highest rate times its length plus the largest single one. |
| TokenBucket.WaitsItsCost | sparkdeck/download_throttle.py:163-169 | After any operations a limited acquire comes due after the one before, and no sooner than its own cost after it was made. |
| LiveMetrics.SeriesRecorder.FoldSample | sparkdeck/live_metrics.py:426-450 | The loop over records credits each tracked request's growth to its state and replaces the baselines. |
| LiveMetrics.SeriesRecorder.Accumulate | sparkdeck/live_metrics.py:394-424 | A tick flushes, folds its sample into the open bucket and closes that at its boundary when the interval has passed. |
| LiveMetrics.TickClosesIff | sparkdeck/live_metrics.py:394-424 | A tick closes the open bucket exactly if a whole interval has passed since that was opened, at the end of that interval, with what was open, pending and sampled; the next is empty. |
| LiveMetrics.SeriesRecorder.EndRequest | sparkdeck/live_metrics.py:272-318 | A request that ends between samples has its last growth credited to the open bucket. |
| LiveMetrics.OneRequest | sparkdeck/live_metrics.py:298-450 | For one request and event, from the events alone: it is credited exactly what it emitted, output and thinking apart, and its baseline is its last observed counter. |
| LiveMetrics.StatesAreConserved | sparkdeck/live_metrics.py:141-540 | Over every schedule of ticks, ends and rollovers of steady requests, for output and for thinking: the tokens of all buckets ever closed, of the open bucket and pending are what all requests were observed to emit in that state. |
| LiveMetrics.TokensAreConserved | sparkdeck/live_metrics.py:141-540 | Both states together are, summed over all requests, last observed minus first sampled. |
| LiveMetrics.TokensAreInBuckets | sparkdeck/live_metrics.py:136-152 | The same, state by state, over the bounded deque: its buckets are the last that were closed, so the tokens in them, in the evicted ones, in the open bucket and pending are what was observed, and nothing is evicted up to 3600 buckets. |
| LiveMetrics.CloseTimesIncrease | sparkdeck/live_metrics.py:136-152 | Bucket close times strictly increase, in lockstep with the buckets, whatever the clock does. |
| NodeProbes.NodeRegistry.ProbeNode | cluster.py:613-653 | Up to its first await a probe call returns a fresh or servable cached entry, shares a probe in flight that is rich enough, or starts one. |
| NodeProbes.CallIsAnsweredIff | cluster.py:613-653 | After every run a call is answered from the cache exactly if it is not forced and the entry is under 4 seconds old and rich enough or negative, or under 60 and negative and the caller asked for details and allows that; a stale answer has a refresh in flight; any other call waits for a rich enough probe, the one in flight or a new one. |
| NodeProbes.NodeRegistry.InvalidateStatus | cluster.py:608-611 | An invalidation drops the cached snapshot and begins a new generation. |
| NodeProbes.NodeRegistry.ForgetTask | cluster.py:686-693 | A finished task is forgotten only if it is still the one in flight. |
| NodeProbes.NodeRegistry.CompleteTask | cluster.py:695-781 | A probe whose generation has passed reads again; any other publishes what its requests came to: disabled, unreachable, health with telemetry, or health with the cached telemetry, if there was any. |
| NodeProbes.CachedIsCurrent | cluster.py:608-611 | In every interleaving what is cached was read entirely, carried telemetry included, in the current generation. |
| NodeProbes.PublishedIsCurrent | cluster.py:695-781 | A snapshot is published only by a probe whose whole reading lies in the current generation. |
| NodeProbes.ReturnedIsFresh | cluster.py:613-693 | Whatever a probe call returns, cached, shared or its own, was read since the last invalidation before the call. |
| NodeProbes.AnswersSayWhatWasRead | cluster.py:695-781 | In every interleaving whatever is cached or answered is what a finished probe came to: online exactly if the node answered, docker_ready exactly as it was read or carried. |
| NodeProbes.GenerationCounts | cluster.py:608-611 | The generation is the number of invalidations. |
| NodeProbes.TaskEvents | cluster.py:608-693 | A cancelled task ends without a status, a callback takes its own task and no other out of flight, an invalidation empties the cache. |
| NodeProbes.ReturnedHasDetailsIff | cluster.py:613-781 | For a call that asks for details: a cached answer has them, and an answer of a probe has them if and only if it is not the case that the status request of the probe failed while no telemetry was cached when it began. |
| NodeProbes.DetailsCanBeMissing | cluster.py:718-727 | A run in which a first probe with details answers online without them. |

## Left out

- SseReader.PayloadsAreInterpreted: asks that the unfinished tail of the upstream has no line break other than a line feed, because the code splits only that tail with splitlines().
- SseStandard.PayloadsAreEvents: is a condition on lines, sufficient but not necessary for whole texts (a bare `data` line alone in its event makes no difference, for one); a byte order mark is not modelled.
- SseStutter.StutteredDataShows: is about the first CR CR LF of a text, and one way; a CR CR LF that ends a comment line or an empty data line changes no payload.
- PatchProtocol.ReturnedMeansBuiltOnce: is about fewer than 100 later jobs, beyond which it is false.
- LiveMetrics.TokensAreConserved: is about requests whose counter does not fall and grows only in the output or thinking state, and about tokens, not about the rounded rates; prompt tokens are not modelled, since `end` adds them again after a sample may have counted them.
- LiveMetrics.SeriesRecorder: does not model concurrency, peaks, displayed times, retirement, the limit on series or switching recording off.
- IntervalUnion.IntervalUnionTicks: takes whole ticks and intervals that do not end before they start.
- TokenBucket.WindowBound: is over real numbers, without rounding, and not for infinite or NaN rates.
- PrefixKeys.FramingInjective: takes SHA-256 to be injective; that equal JSON texts come from equal values is not stated.
- PromptStream: the reader task's dequeue is one atomic step; that the upstream is closed before the lease is freed is not claimed, since the done callback can release first when the producer never started; a consumer that asks again after its iteration ended or was closed is not modelled.
- PromptRequests: the factory is taken to return a coroutine; a factory call that raises would keep its lease.
- PromptGate: a lease is a row of its gate's table and not an object of its own, and the registry of gates by serving group is not modelled.
- OutputDetector: UTF-8 decoding is not modelled, nor a truthy `choices` value that is not a list.
- EnvFile.ApplyEnvUpdates: models updates addressed by key, without the line-pinned list form, the reported lists of updated, deleted and enabled keys, modification times, backups and the atomic replace.
- NodeProbes: models one node and invalidate_status; registry edits that drop the cached status without a new generation are not covered.
- PatchJobs: the Docker build, image identities, bandwidth fields, logs and the controller's own job over several nodes are not modelled; a request's fingerprint is its content, and the saved history is taken to be readable at a restart.
- DiskScan: the filesystem is a fixed tree; the counts of files and directories, progress percentages, rates and the browsing and deletion functions are not modelled.
- Responses: usage beyond its token counts, request options other than tools and input, generated ids, creation times and error texts are not modelled.
- The server's routes, the frontend, Docker and SSH handling, credentials, pairing, the model catalog and the validators of single settings are not modelled: they are input and output, or facts of one branch.
