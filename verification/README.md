# The proof transport and its guard, verified

This project models, in Dafny, the code that carries a Lean proof request from a
request branch through a RISC Zero guest to a public result branch, the process
guard that confines the workers, and two small algorithms elsewhere in the
repository. Every theorem below is about all inputs, all runs or all interleavings.

| modules | what they model |
|---|---|
| `Varints`, `Protobuf`, `Framing` | `tools/lean-zk/ci/receipt.py`: varints, messages, length-prefixed frames over a socket that splits bytes as it likes |
| `Receipts`, `ReceiptReaders`, `ReceiptLaws` | the bincode receipt: abstract receipts and their encoding, the cursor class, and the exact language it accepts |
| `Abi` | `tools/lean-zk/ci/run.py`: `abi_certificate`, against a decoder that follows the offsets |
| `Lines`, `GoalScan`, `GoalExports`, `FullNameScan`, `Declarations`, `MisreadRecords` | the NDJSON scan for `Oncm.goal` that keeps four name states and the exports it accepts, the scan that keeps whole names and what it lists, and a record on which they differ |
| `Requests`, `RequestFiles`, `Guest`, `Agreement` | request validation and the files it accepts, the guest and its checker, and their agreement on the wire and the journal |
| `Results`, `Publisher`, `Statements`, `Producer` | which results are valid, what the publisher decides to publish, that what it states is true, and the record and document that it takes |
| `Attempts`, `PublishProtocol`, `PublishClient`, `PublishRefinement`, `Publication` | the protocol of `publish` on a remote branch with any number of concurrent jobs, one job as a program, their agreement, and the whole publishing pipeline |
| `Processes`, `World`, `Sampling`, `Signals`, `Verdicts`, `SampleLoop`, `Cleanup`, `Selection`, `Guard`, `GuardExamples` | `tools/lean-zk/resource-guard.py`: the process closure, a machine on which pids are reused but the dead stay dead, samples, signals, verdicts, the sampling loop as a function of what it sees, the cleanup, what both select, the guard itself, and runs that end unexpectedly |
| `Threads`, `ThreadOrder`, `ThreadLoop` | `ordered`, the thread flattening of `onchain-social.jsx`: what it lists, in which order, and exactly when its loop ends |
| `ChunkScan` | the chunked scan of `tools/publication/inventory.py` |
| `Options`, `Sequences`, `Bytes`, `JsonValues`, `Libraries` | shared ground: raising, byte strings, JSON values, library functions |

The imperative parts of the source are methods and classes here (the loops of
`varint`, `pb_fields` and the two scans, `ReceiptReader`, the socket, the guest's
buffers, `publish`, the guard, `ordered`, the chunk loop). Each is proved equal to a
function, and the theorems are about that function; for the main operations they include
a description in other terms that holds if and only if the function gives that result
(`Protobuf.AcceptsExactly`, `ReceiptLaws.AcceptsExactly`, `GoalExports.BoundaryExactly`,
`RequestFiles.AcceptedExactly`, `Agreement.CommitsExactly`, `PublishProtocol.JudgesExactly`,
`Publisher.DecidesExactly`, `Selection.SelectedExactly`, `Selection.TargetsExactly`,
`SampleLoop.EndsByClock`, `ThreadLoop.EndsExactly`, `ChunkScan.FoundExactly`). A Python
exception, a failed `require` and a Rust panic are `None`.

SHA-256, JSON parsing, base64, UTF-8 and UUID text, the original receipt verifier and
the Lean checker are arbitrary functions passed as parameters (`Libraries.Library`,
`Publisher.Verifier`, the fields of `Guest.Checker`), so the theorems hold whatever
those do.

## What the proofs found

- `admission.py` line 79 takes the text of a numeric name record from its `str` field
  when it has one; `goal_boundary` never reads that field. So the states of the compact
  scan are views of the full names if and only if no record is misread that way
  (`StatesRefinePaths`). Whenever both scans succeed they still find the same boundary
  (`BoundariesAgree`), and the full scan succeeds exactly when, besides, nothing it
  looks at more closely is wrong and no misread name is defined as Oncm.goal
  (`AdmitsExactly`). `MisreadExample` is an export of five records on which the compact
  scan succeeds and the full scan stops for that reason alone.
- The guard's exit code 0 is not the same as "the leader returned 0, nothing survived,
  cleanup recorded no error": the last sample must also be within the memory limit,
  before the timeout and not cancelled (`Guard.ResourceGuard.Run`).
  `ZeroAndAloneTimesOut` gives two moments at which the loop ends with code 124 all the
  same, once 50 ms of sleep have carried it over the timeout.
- A clean end leaves the cleanup nothing to do: with code 0 it does not raise and sends
  no signal, unless a process of the worker has taken over the pid of the reaped leader
  (`Guard.ResourceGuard.Run`). Survivors are looked for among all pids but the leader's,
  so there that process is overlooked: `HeirIsOverlooked` gives three moments, of a leader
  that was gone at the first sample, at which the loop ends with code 0 while a recorded
  process lives and the cleanup goes for it.
- While signals are sent, the guard handles only OSErrors. It leaves the cleanup, and
  ends with status 1, if and only if a read it makes before a signal is answered for
  another pid (`Guard.ResourceGuard.Run`); no other failed read or signal stops it.
  `RaisingCleanup` is a machine on which it does.
- The chunked scan answers like a scan of the whole file for a word if and only if the
  word has at most 1025 bytes (`WordFoundIffItFits`). A pattern that looks at the bytes
  around its match misses no match of up to 1023 bytes (`ShortMatchesSeen`), but it can
  raise a false alarm, exactly where a block edge inside the file hides the neighbour
  that rules a match out (`FalseAlarmExactly`). `FalseAlarmExample` is such a file for
  the access-key pattern and 64 KiB reads: the key stands behind an x and begins 1024
  bytes before the end of the first read, so the second block begins with it.
- Concurrent publishing: a job that gets as far as moving the branch lands if and only if
  nobody moved the branch since it read it, or somebody had moved it to that very commit
  (`LandsExactly`).
- The loop of `ordered` ends if and only if no entry lies as deep below the root as
  there are entries (`EndsExactly`); with unique ids, if and only if the root is not its
  own descendant (`EndsIffForested`). An entry that is its own parent and the root makes
  it run forever (`SelfParentNeverEnds`).
- The last validation before publishing never fails, but `publish` serialises the
  result again and bounds that text: an accepted result is refused exactly if the new
  text is too long (`RefusedExactly`). It is not if the workflow wrote the same text
  (`OwnTextIsWritten`), but a long list written without spaces is (`LongReportRefused`).

## Model

| member | source | states |
|---|---|---|
| Varints.EncodeVarint | tools/lean-zk/ci/receipt.py:22-28 | the loop appends exactly the base-128 digits of the value, for every value |
| Varints.DecodeVarint | tools/lean-zk/ci/receipt.py:42-52 | the closure `number()` returns and advances as the reading function says: at most ten bytes, failing on truncation |
| Varints.VarintRoundTrip | tools/lean-zk/ci/receipt.py:22-52 | an encoded number with any bytes behind it reads back as that number and consumes its encoding exactly, if and only if it is below 2^70 |
| Varints.VarintIsShortest | tools/lean-zk/ci/receipt.py:22-28 | no byte string that decodes to n is shorter than `varint(n)`, and what decodes is below 2^70 |
| Varints.VarintPrefixFree | tools/lean-zk/ci/receipt.py:22-28 | no encoding is a prefix of another: equal strings start with equal numbers |
| Varints.PackedInjective | tools/lean-zk/ci/receipt.py:168-169 | the concatenated image words determine the list of words |
| Protobuf.PbFields | tools/lean-zk/ci/receipt.py:39-66 | the loop over `pos` and `result` computes the recursive parse of the message |
| Protobuf.PbFieldsCompose | tools/lean-zk/ci/receipt.py:54-66 | if a parses, a + b parses exactly when b does with other field numbers, and then to the union |
| Protobuf.EncodedMessage | tools/lean-zk/ci/receipt.py:31-66 | any fields in any order decode to exactly their map when every number is positive, no number repeats and keys, values and lengths are below 2^70, and are rejected otherwise |
| Protobuf.AcceptsExactly | tools/lean-zk/ci/receipt.py:39-66 | the accepted messages are exactly the sequences of fields with a positive number, wire type 0 or 2, a complete value and no repeated number; the result is what they say |
| Protobuf.VerifyRequestDecodes | tools/lean-zk/ci/receipt.py:167-171 | from the request sent to the verifier the same rules recover the receipt and the packed image words |
| Protobuf.VerifyRequestInjective | tools/lean-zk/ci/receipt.py:167-171 | equal verify requests carry the same receipt and the same image |
| Framing.Connection.Exact | tools/lean-zk/ci/receipt.py:70-76 | however the socket splits its bytes, the next `length` bytes are returned and only they are consumed, or the stream is too short |
| Framing.Connection.RecvFrame | tools/lean-zk/ci/receipt.py:69-79 | one frame is taken off the stream whatever the chunks, or the call fails; nothing is sent |
| Framing.Connection.SendFrame | tools/lean-zk/ci/receipt.py:82-83 | one frame is appended to the outgoing bytes, unless the length does not fit 32 bits |
| Framing.FrameRoundTrip | tools/lean-zk/ci/receipt.py:69-83 | a sent frame comes back with the rest of the stream untouched, if and only if it has at most 8 MiB |
| Framing.FramesRoundTrip | tools/lean-zk/ci/receipt.py:69-83 | k receptions of k sent bodies return them in order and leave the rest |
| Framing.FramesExact | tools/lean-zk/ci/receipt.py:69-83 | what k receptions accept is the frames of what they return, and the rest |
| ReceiptReaders.ReceiptReader.Take | tools/lean-zk/ci/receipt.py:95-99 | consumes exactly n bytes or fails, leaving the data alone |
| ReceiptReaders.ReceiptReader.Assumptions | tools/lean-zk/ci/receipt.py:112-116 | skips at most 64 assumptions, each whole or pruned, or fails |
| ReceiptReaders.ReceiptReader.Output | tools/lean-zk/ci/receipt.py:118-123 | skips an optional output, journal and assumptions each whole or pruned |
| ReceiptReaders.ReceiptReader.Claim | tools/lean-zk/ci/receipt.py:128-133 | skips a claim: two system states, Halted(0), input and output |
| ReceiptReaders.ReceiptReader.Groth16 | tools/lean-zk/ci/receipt.py:135-144 | the cursor returns seal, parameters and journal of the receipt the abstract parser finds, and fails exactly when there is none |
| ReceiptLaws.AcceptsExactly | tools/lean-zk/ci/receipt.py:107-144 | the accepted byte strings are exactly the encodings of well-formed receipts: 256-byte seal, Halted(0), at most 64 assumptions, nothing behind |
| ReceiptLaws.EncodingInjective | tools/lean-zk/ci/receipt.py:107-144 | an encoding determines its receipt |
| ReceiptLaws.NoAcceptedPrefix | tools/lean-zk/ci/receipt.py:143 | no accepted receipt is a proper prefix of another |
| Abi.AbiRoundTrip | tools/lean-zk/ci/run.py:26-31 | a decoder that follows the two offsets recovers both byte strings |
| Abi.AbiInjective | tools/lean-zk/ci/run.py:26-31 | the certificate determines both byte strings |
| Abi.AbiLayout | tools/lean-zk/ci/run.py:27-31 | offsets and length are multiples of 32; the head and the two tails cover the output exactly, one behind the other |
| Abi.AbiBytes | tools/lean-zk/ci/run.py:26-31 | byte for byte: two offsets, and at each a length word, the bytes and zeros up to the next multiple of 32 |
| GoalScan.GoalBoundary | tools/lean-zk/ci/request.py:75-107 | the loop over `names`, `offset` and `boundary` computes the recursive scan |
| GoalExports.BoundaryExactly | tools/lean-zk/ci/request.py:75-107 | an export has boundary b if and only if every line is a strict JSON record in order, exactly one record defines a name that is goal under Oncm under the root, and b is the end of that record |
| Lines.CutsExactly | tools/lean-zk/ci/request.py:80-81 | the export is cut into lines exactly behind a newline, or behind a return with no newline after it |
| GoalScan.BoundaryAtNewline | tools/lean-zk/ci/request.py:80-81 | a boundary is positive, inside the export and right behind a newline |
| GoalScan.PrefixBoundary | tools/lean-zk/ci/request.py:79-107 | which prefixes of an accepted export have a boundary: those ending at a newline at or behind it, and it is the same one |
| GoalScan.BoundaryStable | tools/lean-zk/ci/request.py:79-107 | the prefix up to the boundary consists of complete records and has the same boundary |
| FullNameScan.AdmissionScan | implementations/exchange/performance/ix-tn-add-zero-perf05/admission.py:68-92 | the loop that keeps whole name tuples and the list of declarations, each with its kind, computes the recursive scan |
| Declarations.AdmitAppends | implementations/exchange/performance/ix-tn-add-zero-perf05/admission.py:74-92 | the scan lists what its records declare, one behind the other, looked up in the names known by then |
| Declarations.DeclaresExactly | implementations/exchange/performance/ix-tn-add-zero-perf05/admission.py:81-92 | a record declares its definition, theorem and opaque constant and then the three families of its inductive types, each in order, with its kind and the path of its name; and no axiom |
| Declarations.IntroducedPath | implementations/exchange/performance/ix-tn-add-zero-perf05/admission.py:77-80 | a record that introduces a name extends its parent's path by the text or by the number |
| Declarations.KeysAreEqual | implementations/exchange/performance/ix-tn-add-zero-perf05/admission.py:69 | two indices are the same dictionary key exactly if Python's == takes them for equal |
| Declarations.PassesExactly | implementations/exchange/performance/ix-tn-add-zero-perf05/admission.py:77-88 | a record that is no object is passed by exactly if it is a list or a text that holds none of the keys |
| FullNameScan.StatesRefinePaths | tools/lean-zk/ci/request.py:85-99 | after any records that the compact scan accepts, every name is in state root, namespace or goal exactly when its full path is (), (Oncm) or (Oncm, goal), if and only if no record is misread |
| FullNameScan.BoundariesAgree | implementations/exchange/performance/ix-tn-add-zero-perf05/admission.py:68-92 | whenever both scans succeed on an export they find the same boundary, misread records or not |
| FullNameScan.AdmitsExactly | implementations/exchange/performance/ix-tn-add-zero-perf05/admission.py:68-92 | on an export with a boundary, the full-name scan succeeds exactly when no record is an axiom, every declaration names a known name, and no definition is a shadow of the goal: full path Oncm.goal, state not goal |
| MisreadRecords.MisreadMatters | implementations/exchange/performance/ix-tn-add-zero-perf05/admission.py:78-86 | wherever both scans are together behind an accepted goal, two more records make the full-name scan see a second goal where the compact scan sees none |
| MisreadRecords.MisreadExample | implementations/exchange/performance/ix-tn-add-zero-perf05/admission.py:78-86 | every export whose lines carry five given records has a boundary and is refused by the full-name scan, for a shadow alone |
| Requests.GoalOfExport | tools/lean-zk/ci/request.py:135-143 | two accepted requests whose exports extend each other have the same goal and goal hash |
| RequestFiles.AcceptedExactly | tools/lean-zk/ci/request.py:110-149 | a request file is accepted with given contents if and only if its fields, hashes, packages, profile and boundary are those written out, and the contents are decoded from them |
| RequestFiles.PartExactly | tools/lean-zk/ci/request.py:60-72 | a package decodes to given bytes exactly if its base64 text is their canonical one, its length theirs and its digest their hash |
| Requests.JournalClaims | tools/lean-zk/ci/request.py:146-147 | the four words of an accepted request's journal are the domain's hash, the hash of its goal, its profile id and its outcome |
| Requests.ProducersAgree | tools/lean-zk/ci/run.py:34-53 | the fixture producer, which joins a list of words, builds the outcome, wire and journal of the accepted request with the same goal and export, if and only if the goal hash agrees |
| Guest.ReadSlice | tools/lean-zk/ci/profiles/perf05/source/guest/src/main.rs:10-20 | fills the buffer with the little-endian words at a position, or the stream is too short |
| Guest.GuestMain | tools/lean-zk/ci/profiles/perf05/source/guest/src/main.rs:5-33 | commits the journal of the decoded export, or aborts exactly when a check fails |
| Guest.CheckWithTrace | tools/lean-zk/ci/profiles/perf05/source/checker/src/lib.rs:22-69 | the checks in order, then the journal; aborts exactly when one of them fails |
| Guest.FillJournal | tools/lean-zk/ci/profiles/perf05/source/checker/src/lib.rs:59-66 | the array filled in place holds domain, goal hash, profile hash and outcome as four words |
| Agreement.WireDecodes | tools/lean-zk/ci/profiles/perf05/source/guest/src/main.rs:10-27 | the guest decodes the host's wire to the goal length, outcome and export put in, exactly when its header checks hold |
| Agreement.WireExact | tools/lean-zk/ci/profiles/perf05/source/guest/src/main.rs:10-27 | whatever the guest decodes, its input starts with the host's wire of it |
| Agreement.JournalsEqual | tools/lean-zk/ci/profiles/perf05/source/checker/src/lib.rs:59-68 | the host's precomputed journal is the checker's, when both pin the same profile |
| Agreement.CommitsExactly | tools/lean-zk/ci/profiles/perf05/source/checker/src/lib.rs:22-69 | the guest commits a journal if and only if its input starts with the wire of an export that meets every written-out check, the kernel's checks of goal and proof among them, and the journal claims it |
| Agreement.AcceptedRequestRuns | tools/lean-zk/ci/request.py:135-149 | for every accepted request the guest decodes its wire, and it commits the precomputed journal exactly when the kernel accepts the goal package and, for a proof or a refutation, the whole export; else nothing |
| Results.FailureReportsValidate | tools/lean-zk/ci/request_result.py:47-74 | every failure report, with or without a resource summary, passes the validation of terminal results |
| Producer.RecordValidates | tools/lean-zk/ci/run.py:157-188 | for an accepted request, the record written about a proven receipt passes `validate_proof` exactly if the receipt is small enough to be public |
| Producer.ProducedIsPublished | tools/lean-zk/ci/request_job.py:42-55 | the publisher takes the document around that record, with the receipt, exactly if the original verifier is there and accepts the receipt for the request's image; otherwise it reports a failure |
| Results.ValidProofCertificate | tools/lean-zk/ci/request_result.py:14-44 | valid proof metadata means a receipt the reader accepts with the request's journal, and a certificate that decodes to selector and seal, and journal |
| Publisher.PublisherMain | tools/lean-zk/ci/publish_request.py:105-133 | the decision across the exception handlers, and that its result passes the last validation |
| Publisher.DecidesExactly | tools/lean-zk/ci/publish_request.py:109-132 | a document that lies there in a regular file of bounded size, is valid and, if verified, has a bounded receipt that the original verifier accepts is published as it is; else one of two failure reports |
| Publisher.DecisionValidates | tools/lean-zk/ci/publish_request.py:110-133 | the last validation never fails, whatever the workflow left behind; a receipt is kept exactly for a verified result |
| Publisher.VerifiedIsGenuine | tools/lean-zk/ci/publish_request.py:114-133 | nothing is published as verified unless reader, journal, original verifier and certificate all agree |
| Statements.VerifiedIsTruthful | tools/lean-zk/ci/request_result.py:14-74 | a document published as verified states the goal hash, profile and outcome of its receipt's journal, an image for which the original verifier accepts the receipt, the hash and the parts of that receipt, the hashes of the request's packages, and its own run; its `input` says the same |
| Statements.DecisionSays | tools/lean-zk/ci/request_result.py:47-74 | whatever is published has exactly the fields of a terminal document and names its context; a failure carries no proof and an error of 1 to 2048 characters |
| PublishProtocol.StepKeepsInvariant | tools/lean-zk/ci/publish_request.py:53-95 | every request of every job keeps the invariant: history, tip and what each job knows |
| PublishProtocol.JudgesExactly | tools/lean-zk/ci/publish_request.py:58-73 | a job writes over exactly a failed earlier attempt of its own run and request, and keeps exactly a verified result of its request or an attempt of its run that is not earlier |
| Attempts.AttemptOrder | tools/lean-zk/ci/publish_request.py:71-72 | comparing two attempts as numbers is comparing their texts: the shorter first, then the first difference |
| Attempts.AttemptsAreDecimals | tools/lean-zk/ci/publish_request.py:71 | the attempt texts are exactly the decimal texts of 1 to 999999, each read back as its number |
| PublishProtocol.AcceptedExactly | tools/lean-zk/ci/publish_request.py:91-94 | the server accepts a job's create or fast-forward exactly if the branch is where the job read it, or at that very commit already |
| PublishProtocol.BranchHistoryIsSound | tools/lean-zk/ci/publish_request.py:53-95 | in every state of every interleaving the branch is one parent-linked chain, written by the jobs, of one request and one run, attempts strictly increasing, as numbers and as decimal texts, nothing but the tip verified |
| PublishProtocol.HistoryOnlyGrows | tools/lean-zk/ci/publish_request.py:91-94 | the branch never loses a commit |
| PublishProtocol.VerifiedIsFinal | tools/lean-zk/ci/publish_request.py:67-69 | once the branch points to a verified result it never moves again |
| PublishProtocol.StaysPassive | tools/lean-zk/ci/publish_request.py:67-73 | once the branch holds a verified result or an attempt as late as the job's, a job that has not begun to write never will |
| PublishProtocol.RepublishingIsPassive | tools/lean-zk/ci/publish_request.py:67-73 | so no step of that job changes the branch |
| PublishProtocol.SameContextIsDone | tools/lean-zk/ci/publish_request.py:67-73 | when a job has finished, the branch is settled for every job of the same context |
| PublishClient.Publish | tools/lean-zk/ci/publish_request.py:53-95 | one job against a server that serves other jobs between its calls: its answer and the branch afterwards, as a function of the two moments at which it reads and moves the branch |
| PublishClient.OutcomeExactly | tools/lean-zk/ci/publish_request.py:53-95 | publish() answers with what it keeps; it writes a commit of its own files on a branch that is absent or holds what it replaces, if the text is not too long and the server takes the move; and it raises in any other case |
| PublishRefinement.RunRefinesPublish | tools/lean-zk/ci/publish_request.py:53-95 | in every interleaved run, a job that does not die gives the answer and makes the branch change that `PublishClient.Publish` promises for the branch at the moment it read it and at its last step; in between, other jobs' moves alone changed the branch |
| PublishRefinement.LandsExactly | tools/lean-zk/ci/publish_request.py:53-95 | a job that gets to its move lands exactly if the branch was not moved since its read, or was moved to that very commit; otherwise it fails and leaves the branch alone |
| PublishRefinement.PublishLands | tools/lean-zk/ci/publish_request.py:74-95 | a job that may write and takes all steps from some moment on answers with a commit of its own document on the tip, and the branch points to it |
| Publication.MainJobIsOk | tools/lean-zk/ci/publish_request.py:104-134 | the job that `main` starts states its own context |
| Publication.RefusedExactly | tools/lean-zk/ci/publish_request.py:74-79 | `publish` refuses to write a validated result exactly if its text, serialised again, is too long |
| Publication.OwnTextIsWritten | tools/lean-zk/ci/request_job.py:15-16 | never, if the workflow left the text that `publish` will write |
| Publication.LongReportRefused | tools/lean-zk/ci/publish_request.py:74-75 | a failure report with a long list that is accepted and then refused |
| Publication.VerifiedBranchIsGenuine | tools/lean-zk/ci/publish_request.py:53-134 | in every run of any number of publishing jobs, a verified document on the branch is the tip; it names the context of a job with a valid request, the receipt beside it is genuine for that request, and the certificate beside it decodes to the words of that request's claim: domain, goal, profile, outcome |
| Processes.FindDescendants | tools/lean-zk/resource-guard.py:149-155 | the loop ends, also on cyclic parent links, with the closure |
| Processes.DescendantsAreLeast | tools/lean-zk/resource-guard.py:149-155 | the closure is the least set with the seeds that is closed under parents being in it |
| Processes.DescendantsByChains | tools/lean-zk/resource-guard.py:149-155 | a process is selected exactly if a chain of children leads to it from a seed |
| Processes.LeastClosureUnique | tools/lean-zk/resource-guard.py:149-155 | and the only one |
| Processes.DescendantsMonotone | tools/lean-zk/resource-guard.py:149-155 | more seeds, more processes |
| Processes.DescendantsIdempotent | tools/lean-zk/resource-guard.py:149-155 | the closure of a closure is itself |
| Processes.DescendantsOfUnion | tools/lean-zk/resource-guard.py:149-155 | the closure of a union is the union of the closures |
| World.DescendantsOwned | tools/lean-zk/resource-guard.py:149-155 | at one moment, the closure of processes of the worker holds processes of the worker only |
| Sampling.SelectionOwned | tools/lean-zk/resource-guard.py:297-308 | everything a sample selects belongs to the worker: a chain of parents, groups and identities leads back to the leader, whatever pids were reused |
| Selection.SelectedExactly | tools/lean-zk/resource-guard.py:297-308 | a sample selects exactly the ends of the chains of live children that start at the unreaped leader, at a recorded process that is still itself, or at a member of one of their groups |
| Selection.SampledExactly | tools/lean-zk/resource-guard.py:309-331 | exactly which processes survive, and which are recorded as what |
| Selection.SampleSum | tools/lean-zk/resource-guard.py:309-317 | the sum is the guard's own footprint and that of each process counted, once, in any order |
| Selection.SampleFailsExactly | tools/lean-zk/resource-guard.py:297-317 | a sample fails exactly if one of the reads it needs does |
| Sampling.CleanupOwned | tools/lean-zk/resource-guard.py:216-219 | the same for everything the cleanup selects |
| Selection.TargetsExactly | tools/lean-zk/resource-guard.py:208-227 | a cleanup pass goes exactly for the readable live processes that were recorded, or that such a chain leads to, and that are no recorded pid used again |
| Selection.GroupsExactly | tools/lean-zk/resource-guard.py:205-228 | and exactly for their process groups and the unreaped leader's |
| Signals.SignalledGroupIsOwned | tools/lean-zk/resource-guard.py:235-243 | every signalled group held, at that moment, a process of the worker |
| Guard.ResourceGuard.Account | tools/lean-zk/resource-guard.py:309-317 | identities are written once; the sum is the guard's own footprint and those of the live processes that are not a recorded pid used again; it fails exactly when a needed read does |
| Guard.ResourceGuard.TakeSample | tools/lean-zk/resource-guard.py:297-317 | one sample: what is selected, added up and recorded, and exactly when it fails |
| Guard.ResourceGuard.SignalProcess | tools/lean-zk/resource-guard.py:257-271 | a process is signalled exactly when it can be read and has its recorded identity; a read refused with EPERM is looked at again, another OSError is recorded, and only a read for another pid raises |
| Guard.ResourceGuard.SignalGroup | tools/lean-zk/resource-guard.py:231-256 | a group is signalled when it is the unreaped leader's or holds a target, and not otherwise; an unreadable target may prevent it, and raises only for another pid |
| Guard.ResourceGuard.FindTargets | tools/lean-zk/resource-guard.py:198-228 | the groups and processes of a pass, as a function of what is recorded and what the moment shows |
| Guard.ResourceGuard.StopTree | tools/lean-zk/resource-guard.py:188-277 | unless it raises, each pass checks, at a moment of its own, every process and group it goes for, and signals what it finds to be itself (so the group of a leader not reaped yet gets both signals: `LeaderGroupSignalled`); where the first pass finds nothing to go for it does nothing; it raises if and only if one of these checks is answered for another pid |
| Cleanup.DeadMeansNothing | tools/lean-zk/resource-guard.py:205-230 | once the leader is reaped and no other recorded process lives, a later pass finds nothing to do, unless the leader's pid was recorded for another process |
| Guard.ResourceGuard.SettleRound | tools/lean-zk/resource-guard.py:319-345 | limits, cancellation, timeout, return code, 500 ms of grace for survivors: when a round ends the loop and with which reason and code |
| Guard.ResourceGuard.Watch | tools/lean-zk/resource-guard.py:296-345 | the loop ends at the last moment it sees, not before, with the samples, records, reason and code that the function of these moments gives; the peak is the maximum; and it takes at most one round more than timeout over the shortest sleep |
| SampleLoop.EndExplained | tools/lean-zk/resource-guard.py:318-345 | where the loop ends, its last round, which shows the last sample, explains reason and code |
| SampleLoop.EndsByClock | tools/lean-zk/resource-guard.py:296-345 | the loop goes on at a moment if and only if the sample is in every limit and the leader runs, or left something less than 500 ms ago; else it ends with the reason and code written out, 100 or 50 ms of sleep between two looks |
| Guard.ResourceGuard.Run | tools/lean-zk/resource-guard.py:279-369 | the whole run: recorded identities are never replaced; every signal was allowed by the check before it; the loop ends as its moments say, grace included; unless the cleanup raises, both passes are done; it raises if and only if a check is answered for another pid; code 0 means that it did not raise and sent nothing, unless the leader's pid was taken over by a process of the worker; the peak is the maximum of the samples and exceeds the limit exactly for reason memory-limit; code 0 exactly for reason completed, exactly for a clean last round without cleanup errors |
| GuardExamples.ZeroAndAloneTimesOut | tools/lean-zk/resource-guard.py:325-345 | two moments in which the leader returns 0, its child goes away and nothing survives, and at which the loop ends with timeout and code 124 |
| GuardExamples.HeirIsOverlooked | tools/lean-zk/resource-guard.py:331 | three moments at which the loop ends with code 0 although a process of the worker lives: it has the leader's pid, which the survivors leave out |
| GuardExamples.RaisingCleanup | tools/lean-zk/resource-guard.py:257-271 | a machine on which the cleanup raises: its second read of the leader's child is answered for another pid |
| Verdicts.MaxOfIsMaximum | tools/lean-zk/resource-guard.py:318 | the peak is at least every sample and is one of them |
| Threads.Ordered | implementations/exchange/web/onchain-social.jsx:30 | the map, the stack and the result array compute the recursive pre-order traversal, in as many rounds as it has rows, for all items on which the loop ends |
| ThreadOrder.ListedIffBelow | implementations/exchange/web/onchain-social.jsx:30 | an entry is listed with a depth exactly when it lies that deep below the root |
| ThreadOrder.RootsExactly | implementations/exchange/web/onchain-social.jsx:30 | the roots of the whole forest are the entries without a parent or with an empty one; other roots are named by a non-empty id |
| ThreadOrder.ListedOnce | implementations/exchange/web/onchain-social.jsx:30 | no entry is listed twice |
| ThreadOrder.SubtreeContiguous | implementations/exchange/web/onchain-social.jsx:30 | every subtree follows its top without a gap |
| ThreadOrder.SiblingsInOrder | implementations/exchange/web/onchain-social.jsx:30 | entries with the same parent keep their input order |
| ThreadLoop.EndsExactly | implementations/exchange/web/onchain-social.jsx:30 | for all items, the loop ends if and only if no entry lies as deep below the root as there are items |
| ThreadLoop.EndsIffForested | implementations/exchange/web/onchain-social.jsx:30 | with unique ids, the loop ends if and only if the root is not its own descendant |
| ThreadLoop.SelfParentNeverEnds | implementations/exchange/web/onchain-social.jsx:30 | an entry that is its own parent, listed from its own id, keeps the loop running |
| ChunkScan.ScanFile | tools/publication/inventory.py:55-68 | the digest sees the file's bytes once and in order; the two flags are about the blocks, each chunk behind the last 1024 bytes before it |
| ChunkScan.BlockIsFactor | tools/publication/inventory.py:58-68 | block k is the stretch of the file that ends with chunk k and starts up to 1024 bytes before it |
| ChunkScan.ShownExactly | tools/publication/inventory.py:58-68 | a stretch lies in some block exactly when it starts at most 1024 bytes before the chunk with its last byte |
| ChunkScan.ShortStretchesShown | tools/publication/inventory.py:58-68 | so every stretch of up to 1025 bytes lies in some block, however the file is cut |
| ChunkScan.ScanIsComplete | tools/publication/inventory.py:58-68 | a search for stretches of up to 1025 bytes, whatever is around them, finds one in a block exactly when the file holds one |
| ChunkScan.FoundExactly | tools/publication/inventory.py:60-68 | for a pattern that looks at the bytes around its match, the scan finds exactly the stretches that match with the neighbours their block shows |
| ChunkScan.ShortMatchesSeen | tools/publication/inventory.py:60-68 | no match of up to 1023 bytes is missed, for any pattern and any cut |
| ChunkScan.FalseAlarmExactly | tools/publication/inventory.py:60-68 | a file without a match raises an alarm exactly if a block edge inside the file cuts off the neighbour that rules a match out |
| ChunkScan.FalseAlarmExample | tools/publication/inventory.py:31-68 | a file of 64 KiB and one byte without an access key between word boundaries, on which the second block shows one |
| ChunkScan.FlagExactly | tools/publication/inventory.py:63-64 | the flag is raised exactly for a match of some pattern seen in a block, and so for every file with a match of up to 1023 bytes |
| ChunkScan.OnlyPublicExactly | tools/publication/inventory.py:63-67 | the second flag holds exactly if in every block that shows a match no strict pattern does and all that the last one captures, at least once, is the known phrase |
| ChunkScan.WordFoundIffItFits | tools/publication/inventory.py:58-68 | a word is found in exactly the files that contain it, for every cut, if and only if it has at most 1025 bytes |

## Left out

- SHA-256, JSON text, base64, UTF-8 and UUID text: arbitrary functions. No theorem needs SHA-256 to be free of collisions.
- FullNameScan.AdmissionScan: keeps the path of a declaration where the source joins its components with dots.
- The Lean kernel, the export parser of the checker, RISC Zero and the Groth16 verifier: arbitrary predicates.
- Bytes.Unhex: reads lower-case digits only; where the source calls `bytes.fromhex`, the text was validated as lower-case or written by `hex()`.
- JSON numbers: a float is a real number. The constants NaN and Infinity, and literals that overflow to an infinity, have no value here; nor has the rounding of a literal.
- Framing.Connection.RecvFrame: timeouts and socket errors are not modelled, only a closed connection.
- PublishProtocol.Step: object ids stand for the content they name, a commit being its parent, tree and a stamp; the commit status beside a reference, redirects, tokens and HTTP errors other than a refusal are not modelled. A job may die between any two requests.
- PublishProtocol.Published: the document read back from the branch is the JSON that was written; that parsing undoes serialising is taken for granted.
- `git_context`, `verify_original`'s process and socket handling, `run.py`'s `main`, `compact_resources`: plumbing around the modelled decisions.
- Guest.GuestMain: phase names, cycle counts and log lines, which do not reach the journal.
- Guard.ResourceGuard.Run: the steps before the worker is started (accounting probe, lock, fork) and the report's timestamps and rounding; signals to the guard arrive as part of a moment.
- Guard.ResourceGuard.SignalProcess: promises the identity at the check; the signal lands later, and a pid reused in between would be hit, which the code accepts.
- World.Machine: pid and start time name a process for good, as the guard takes them to; a clock step that gives a reused pid the same start time is not modelled.
- Guard.ResourceGuard.Adopt: the order in which sets and dictionaries are walked is arbitrary here.
- ThreadOrder.ListedOnce: with its companions, assumes unique ids; `Threads.Ordered` does not.
- ChunkScan.ScanFile: a regular expression is a test of a stretch and of the bytes next to it; what `findall` captures is a function of the block. File metadata and the manifest are not modelled.
- The duplicate copies of the guard, checker, guest and host under `implementations/`, the web interface except `ordered`, installers and operations scripts.
