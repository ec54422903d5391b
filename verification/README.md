# Verified models of an editor distribution's protocol, tooling and data code

This project models eight components of the repository and proves properties of them in Dafny 4.11.
`dafny verify dfyconfig.toml` checks everything.

| files | component |
|---|---|
| `RpcStreams.dfy` | the incoming side of the RPC stream multiplexer: a mutex-guarded map of stream records, the write loops it spawns, deferred shutdown |
| `RpcCalls.dfy` | matching responses to pending calls |
| `RpcServer.dfy` | replies to requests, and the outgoing side of duplex streams |
| `AccessorSyntax.dfy`, `AccessorLint.dfy`, `AccessorSoundness.dfy`, `AccessorExactness.dfy`, `AccessorLintLimits.dfy` | the lint rule that forbids a `ServicesAccessor` after an `await`: syntax trees with a path semantics, the walk, what it never misses, what it never reports in vain, and the bodies it misjudges |
| `LeakageGroups.dfy`, `DataSplit.dfy` | grouping training rows that share a prompt or an answer (union-find with path halving), then dedup, cap and split by group |
| `MsgPack.dfy`, `MsgPackEncoding.dfy`, `FramingLoop.dfy`, `RpcConnection.dfy` | the incremental MessagePack decoder, its inverse, the loop that serves a connection over a bounded channel, and all of it composed with the dispatcher, from bytes read to replies on the wire |
| `Keyring.dfy`, `DeviceFlow.dfy` | credentials cut over keyring entries, and polling for a device code |
| `Singleton.dfy` | processes competing for a lock file and a socket |
| `TextEdits.dfy`, `ImportMerge.dfy` | applying a formatter's edits, merging duplicate imports |
| `LruCache.dfy` | the download cache and its recency list |
| `Util.dfy` | optional values, flattening, first occurrences, counting |

Concurrent parts are state machines. Each has events, `Enabled` and `Next`, and a theorem speaks of every
sequence of events from the initial state, in any interleaving. Objects whose methods update fields are
classes with those fields; each such method is proved equal to a step of the state machine or to a
specification function, and the lemmas are about those.

Findings about the code that the proofs made exact:

- `RpcCaller::call` sends its request before it registers its callback, so a response can be lost in the gap
  (`RpcCalls.ResponseInTheGapIsLost`); a response without an id panics under the lock of the callback map.
- Inserting a stream is safe exactly when its id has no record in the map
  (`RpcStreams.InsertIsSafeIffUnused`): then no half is ever lost, and otherwise some way to go on loses one,
  the old half at once if it is in the record, else the new one when the old loop returns. An id may be used
  again as soon as its record is gone, even if the old half is still to be shut down. All stream theorems assume
  just that.
- The lint misses an `await` carried round a loop, from case to case, into a handler or a finalizer, past a
  `break` in a branch that otherwise leaves the function, and over a switch without cases. It misses a use
  or an `await` in node types it does not list and in parts that it skips of nodes it does list (defaults and
  computed keys in patterns, computed keys of object literals); a use in the left side of a `for` head after an
  `await` in its right side; a use in code that a call runs at once, as a
  callback or an immediately called function; the accessor as an argument of `new`; a receiver `accessor!` or
  `(accessor as T)`; any other mention of the accessor, and other names for it; and calls of the accessor whose
  own arguments wait. `AccessorLintLimits` has a body for each.
- Take a body in which the accessor's name stands only as the receiver of a method call or as an argument of a call,
  no other name holds it, nested functions do not use it, skipped parts neither wait nor use it, and no switch is
  without cases (`AccessorSoundness.Handled`). On every path that carries no `await` in one of the other ways, each
  use after a suspension stands at or below a reported node (`AccessorSoundness.NothingSeenIsMissed`). All paths are
  like that, and nothing is missed (`AccessorSoundness.LintIsSound`), under a condition on the text of the body,
  `AccessorSoundness.Checkable`. A part of a loop may wait if no part up to it, in the order test, update, body, uses
  the accessor. In a switch nothing uses it, or the tests do not wait and a body that waits never falls through or
  has no use in a body after it. A block with a handler does not wait. A finalizer neither uses the accessor nor
  jumps, or nothing before it waits. A branch that the lint takes to leave the function does not both wait and jump
  out of itself. If a use counts again when the call is made, then also no part of a call that is handed the accessor
  waits.
- Code without an `await` is never reported (`AccessorLint.NoAwaitNoReport`). In the other direction the lint reports
  dead code; a use behind a loop, a `switch` or a `try` whose waiting round, case or handler always leaves the
  function; and a use behind a branch that waits and then breaks (`AccessorLintLimits`). Where nothing like that
  occurs (`AccessorExactness.Live`), with loops, switches and tries of any kind, every report is justified by a path
  that misuses the accessor there (`AccessorExactness.LintIsExact`).
- The connection loop awaits sends on a channel that only it empties. It blocks for good exactly when one
  read asks for more than the free slots (`FramingLoop.ReadCompletesIffItFits`, `RpcConnection.Serve`).
- A sealed credential whose length is a multiple of the step, or whose last piece ends in the marker, is not
  read back (`Keyring.RoundTripOnEmptyKeyring`); over longer old entries an old tail is attached to it
  (`Keyring.StaleTailIsAppended`). Clearing fails when nothing is stored.
- Merging imports twice can differ from merging once, exactly when a name is imported from one module both
  by `import type` and as `type name` (`ImportMerge.SecondPass`); from then on nothing changes.
- The comment at `vscode/.eslint-plugin-local/code-no-accessor-after-await.ts:288` speaks of call arguments
  and assignments; the code flags only call arguments, and so does the model.

## Model

| member | source | states |
|---|---|---|
| RpcStreams.StepKeepsInv | vscode/cli/src/rpc.rs:543-631 | every critical section, item write, failed write and shutdown, and every insert under an id without a record, keeps the invariant that ties each write half to one place and its sent, in-flight and queued bytes to the writes accepted for it |
| RpcStreams.OneOwner | vscode/cli/src/rpc.rs:531-631 | in every reachable state a write half is in at most one record or task, and it is in none exactly when it has been shut down, which happens at most once |
| RpcStreams.RecordsAndLoops | vscode/cli/src/rpc.rs:564-621 | a record holding its half has an empty queue and no pending end; one without it is served by exactly one running loop; a running loop always finds its record |
| RpcStreams.Delivery | vscode/cli/src/rpc.rs:543-631 | over every interleaving and for every half, sent bytes, then the batch in flight, then the queue are exactly the writes accepted for it; at shutdown everything accepted was sent, in order; after a failed write what was sent is a prefix; ids may be used again |
| RpcStreams.WritesAreAccepted | vscode/cli/src/rpc.rs:564-573 | in every run each write to an id with a record, marked ended or not, is accepted for the half last inserted under it and joins its queue |
| RpcStreams.NothingElseIsAccepted | vscode/cli/src/rpc.rs:564-584 | a write to an id without a record changes nothing, and no other step accepts anything |
| RpcStreams.OfferedArrives | vscode/cli/src/rpc.rs:543-631 | in terms of the call sequence alone: a stream shut down without write errors has received at least all writes made before its first removal, in order, and without a removal it is never shut down |
| RpcStreams.EndedStreamCloses | vscode/cli/src/rpc.rs:547-555 | once the record of a half is marked ended, its owner takes a bounded number of further steps, two more per late write, and when it can take none nobody has the half and it was shut down once with everything delivered |
| RpcStreams.RemovedStreamCloses | vscode/cli/src/rpc.rs:543-631 | after a removal, whatever runs next and however much was in flight or queued, the owner of the half takes boundedly many steps and ends with it shut down once and everything accepted delivered |
| RpcStreams.InsertIsSafeIffUnused | vscode/cli/src/rpc.rs:575-584 | from every reachable state, an insert can be followed by a run that leaves a half nobody holds and nobody shut down if and only if its id has a record |
| RpcStreams.Streams.Insert | vscode/cli/src/rpc.rs:575-584 | the method is the insert step |
| RpcStreams.Streams.Write | vscode/cli/src/rpc.rs:564-573 | the method is the write step: enqueue, and spawn a loop if the record holds the half; nothing for an unknown id |
| RpcStreams.Streams.Remove | vscode/cli/src/rpc.rs:543-562 | the method is the remove step: take the half and its record away, or mark the record ended |
| RpcStreams.Streams.TurnLoop | vscode/cli/src/rpc.rs:603-621 | the loop's critical section is one step with its four outcomes |
| RpcStreams.Streams.WriteItem | vscode/cli/src/rpc.rs:623-627 | one pass of the drain loop, on a pipe that takes so many more bytes, is a send step if the item fits, else a failure that keeps what fitted and drops the batch |
| RpcStreams.Streams.WriteLoop | vscode/cli/src/rpc.rs:596-631 | run alone the loop ends; on a pipe that takes n more bytes, exactly the first n bytes of the batch and the queue have been sent, and the pipe is broken only if there were more; the half is back in its record, or shut down with the record gone if an end was pending |
| RpcCalls.MapIsOutstanding | vscode/cli/src/rpc.rs:361-378 | over every run the map holds exactly the calls registered and not since answered or replaced, and the lock is poisoned exactly after a response without an id |
| RpcCalls.CompletedExactly | vscode/cli/src/rpc.rs:439-449 | a call completes with an outcome if and only if that outcome is the first response to its id while it is outstanding; no assumption on ids |
| RpcCalls.AtMostOnce | vscode/cli/src/rpc.rs:341-381 | no call is completed twice |
| RpcCalls.FirstResponseCompletes | vscode/cli/src/rpc.rs:439-449 | if no other call uses the id meanwhile, the first response after registration completes the call, unless the lock was poisoned before |
| RpcCalls.ResponseInTheGapIsLost | vscode/cli/src/rpc.rs:356-362 | a response dispatched between sending and registering is dropped and the call stays pending |
| RpcCalls.CompletesBeforeWrap | vscode/cli/src/rpc.rs:397-400 | with ids off the wrapping 32-bit counter, a call answered before the counter comes round again is completed by the first response after its registration, unless the lock was poisoned before |
| RpcCalls.RpcCaller.SendRequest | vscode/cli/src/rpc.rs:348-359 | an id is drawn in any case; the request is enqueued exactly when the channel is open |
| RpcCalls.RpcCaller.RegisterCallback | vscode/cli/src/rpc.rs:361-378 | the method is the registration step |
| RpcCalls.RpcCaller.HandleResponse | vscode/cli/src/rpc.rs:439-449 | the method is the response step, including the poisoned lock |
| RpcServer.ReplyDiscipline | vscode/cli/src/rpc.rs:101-272 | over every run no reply is sent more often than requests are owed it, and exactly that often once nothing is in progress; requests without an id are owed none |
| RpcServer.OneReplyEach | vscode/cli/src/rpc.rs:420-438 | an id gets no more replies, success or error, than there were requests with it, and exactly as many once nothing is pending |
| RpcServer.OwedMeaning | vscode/cli/src/rpc.rs:101-272 | the one reply a request is owed: none without an id; an error with code -1 for an unknown or failed method, with code 0 for parameters that do not parse; else a success |
| RpcServer.NoticeComesFirst | vscode/cli/src/rpc.rs:453-481 | until the start notice of a duplex request is sent, whatever else happens, the reply owed to it alone is neither sent nor in any future |
| RpcServer.ScanMeaning | vscode/cli/src/rpc.rs:453-524 | the receiver's one-pass reading of a stream agrees with the list of messages about it: start notice, data, one end notice last |
| RpcServer.StreamDiscipline | vscode/cli/src/rpc.rs:453-524 | over every run the messages about a stream are its start notice, then data whose segments join to what was read and sent so far, then one end notice once the copying task is done |
| RpcServer.SegmentsAreSmall | vscode/cli/src/rpc.rs:483-522 | over every run no data message is empty or longer than 4096 bytes |
| RpcServer.PumpStream | vscode/cli/src/rpc.rs:483-522 | the copying loop stops at the first empty read, and its messages carry exactly the bytes before it and end with the end notice |
| RpcConnection.SendsAreAnswers | vscode/cli/src/msgpack_rpc.rs:74-98 | what the loop sends for some frames is exactly what the dispatcher owes for them at once, serialized, in order |
| RpcConnection.AnsweredAtOnce | vscode/cli/src/rpc.rs:420-462 | which requests are answered at once and with what: unknown methods and synchronous ones by a reply if they have an id, duplex ones by their start notice |
| RpcConnection.Serve | vscode/cli/src/msgpack_rpc.rs:59-109 | for every way of cutting the incoming bytes into reads, the wire carries exactly the answers to the frames of the whole stream, in order; a decoding error leaves those of the frames before it; the loop blocks for good if and only if some read asks for more than eight sends, and does so at the first |
| RpcConnection.NineBlock | vscode/cli/src/msgpack_rpc.rs:59-98 | one read holding only requests with ids for unknown methods blocks the loop if and only if they are nine or more |
| RpcConnection.AnswersToMessages | vscode/cli/src/msgpack_rpc.rs:66-98 | the frames answered on a stream of encoded messages are those messages |
| AccessorLint.ExitsNeverFallThrough | vscode/.eslint-plugin-local/code-no-accessor-after-await.ts:260-272 | no path through a node that always exits completes normally |
| AccessorLint.NoAwaitNoReport | vscode/.eslint-plugin-local/code-no-accessor-after-await.ts:124-253 | any node without an `await`, loops, switches and tries included, leaves the flag as it was or clears it, and reports nothing if the flag was clear |
| AccessorSoundness.Lacks | vscode/.eslint-plugin-local/code-no-accessor-after-await.ts:298-398 | a node with no `await`, no use or no jump in it never suspends, uses the accessor or jumps out, on any path; function values run by its calls included |
| AccessorSoundness.Taint | vscode/.eslint-plugin-local/code-no-accessor-after-await.ts:124-253 | walked with the flag already set, every node hands the flag on, and on every path each place where the accessor is used stands at or below a reported node; loops, switches, tries and skipped parts that do nothing of interest included |
| AccessorSoundness.Sound | vscode/.eslint-plugin-local/code-no-accessor-after-await.ts:124-253 | for every handled node and every path along which no `await` is carried past the walk, each use after a suspension stands at or below a reported node, and the flag is set if the path stays in the function, suspended |
| AccessorSoundness.NothingSeenIsMissed | vscode/.eslint-plugin-local/code-no-accessor-after-await.ts:116-253 | on such a path of a whole handled body every misuse is reported, whatever its other paths do |
| AccessorSoundness.WatchedIsSeen | vscode/.eslint-plugin-local/code-no-accessor-after-await.ts:359-379 | a condition on the text of a body, part by part, under which every one of its paths is of that kind: what may wait in loops, switches, tried blocks, before finalizers and in branches that leave |
| AccessorSoundness.LintIsSound | vscode/.eslint-plugin-local/code-no-accessor-after-await.ts:116-253 | on every path of a checkable body, each use of the accessor after a suspension stands at or below a node that is reported; parts the walk skips and nested functions may be there if they do not use it, and loops, cases, handlers and finalizers may wait or use it as the condition says |
| AccessorExactness.LintIsExact | vscode/.eslint-plugin-local/code-no-accessor-after-await.ts:116-253 | for every live body, with loops, switches and tries, each reported node has a path on which its use follows a suspension; if the body is also checkable, the rule reports if and only if some path misuses the accessor |
| AccessorExactness.ExitsExactly | vscode/.eslint-plugin-local/code-no-accessor-after-await.ts:260-272 | in a live node that does not end in a switch, a try or a jump, the rule takes it to leave the function if and only if no path of it ends normally |
| AccessorLint.Checker.Visit | vscode/.eslint-plugin-local/code-no-accessor-after-await.ts:124-248 | the imperative walk over one flag and one list computes the specified flag and appends exactly the specified reports, in order |
| AccessorLint.Checker.VisitIf | vscode/.eslint-plugin-local/code-no-accessor-after-await.ts:159-192 | save, restore and join of the flag around an `if` agree with the specified join |
| AccessorLint.Checker.VisitCases | vscode/.eslint-plugin-local/code-no-accessor-after-await.ts:207-215 | the case loop agrees with the specification in which every case starts from the state before the switch |
| AccessorLint.Checker.VisitTry | vscode/.eslint-plugin-local/code-no-accessor-after-await.ts:219-231 | the handler is walked from the state before the `try`, the finalizer from the join |
| AccessorLint.Checker.VisitLoop | vscode/.eslint-plugin-local/code-no-accessor-after-await.ts:359-379 | the parts of a loop are walked once, in the order head, test, update, body, with one flag |
| AccessorLintLimits.LoopsAreMissed | vscode/.eslint-plugin-local/code-no-accessor-after-await.ts:359-379 | a loop whose second round misuses the accessor is not reported |
| AccessorLintLimits.HandlersAreMissed | vscode/.eslint-plugin-local/code-no-accessor-after-await.ts:223-226 | a handler reached after an `await` is not reported |
| AccessorLintLimits.FinalizersAreMissed | vscode/.eslint-plugin-local/code-no-accessor-after-await.ts:227-229 | a finalizer run on the way out of a branch that waited is not reported |
| AccessorLintLimits.FallthroughIsMissed | vscode/.eslint-plugin-local/code-no-accessor-after-await.ts:209-214 | falling through from a case that waited is not reported |
| AccessorLintLimits.EmptySwitchForgets | vscode/.eslint-plugin-local/code-no-accessor-after-await.ts:208-215 | a switch without cases makes the walk forget an earlier `await` |
| AccessorLintLimits.UnlistedNodesHide | vscode/.eslint-plugin-local/code-no-accessor-after-await.ts:395-396 | a misuse below a node type that is not listed is not reported |
| AccessorLintLimits.SkippedUsesAreMissed | vscode/.eslint-plugin-local/code-no-accessor-after-await.ts:306-350 | a use in a default of a declared pattern, or in a computed key of an object literal, is not reported |
| AccessorLintLimits.LoopHeadsAreMissed | vscode/.eslint-plugin-local/code-no-accessor-after-await.ts:365-374 | a use in the left side of a `for` head, evaluated after an `await` in the right side, is not reported |
| AccessorLintLimits.SkippedAwaitIsMissed | vscode/.eslint-plugin-local/code-no-accessor-after-await.ts:306-310 | an `await` in a default of a declared pattern is not seen, so a later use is not reported |
| AccessorLintLimits.JumpsAreMissed | vscode/.eslint-plugin-local/code-no-accessor-after-await.ts:179-184 | a `break` after an `await`, inside a branch whose last statement returns, carries the `await` past the walk, so a use after the loop is not reported |
| AccessorLintLimits.CallbacksAreMissed | vscode/.eslint-plugin-local/code-no-accessor-after-await.ts:130-138 | a callback, an immediately called function, or a function passed along with a waiting argument, run after an `await`, may use the accessor unreported |
| AccessorLintLimits.ConstructorsAreMissed | vscode/.eslint-plugin-local/code-no-accessor-after-await.ts:278-296 | the accessor as an argument of `new` after an `await` is not reported |
| AccessorLintLimits.WrappedReceiversAreMissed | vscode/.eslint-plugin-local/code-no-accessor-after-await.ts:388-391 | a call on `accessor!` or `(accessor as T)` after an `await` is not reported |
| AccessorLintLimits.ReferencesAreMissed | vscode/.eslint-plugin-local/code-no-accessor-after-await.ts:287-295 | a mention of the accessor other than as a call's receiver or argument is not reported |
| AccessorLintLimits.AliasesAreMissed | vscode/.eslint-plugin-local/code-no-accessor-after-await.ts:278-296 | a call on another name for the accessor after an `await` is not reported |
| AccessorLintLimits.LateCallIsMissed | vscode/.eslint-plugin-local/code-no-accessor-after-await.ts:148-155 | `accessor.get(await x)`, counted as a use when the call is made, is not reported |
| AccessorLintLimits.DeadCodeIsReported | vscode/.eslint-plugin-local/code-no-accessor-after-await.ts:159-192 | code after a block that always leaves can be reported although no path misuses the accessor |
| AccessorLintLimits.LeavingRoundsAreReported | vscode/.eslint-plugin-local/code-no-accessor-after-await.ts:365-379 | a use behind a loop whose round waits and returns is reported although no path misuses the accessor |
| AccessorLintLimits.LeavingCasesAreReported | vscode/.eslint-plugin-local/code-no-accessor-after-await.ts:203-217 | the same behind a switch whose case waits and returns |
| AccessorLintLimits.LeavingHandlersAreReported | vscode/.eslint-plugin-local/code-no-accessor-after-await.ts:219-231 | the same behind a `try` whose handler waits and returns |
| AccessorLintLimits.BreakingBranchesAreReported | vscode/.eslint-plugin-local/code-no-accessor-after-await.ts:159-192 | a use in a loop behind a branch that waits and breaks is reported although no path misuses the accessor |
| LeakageGroups.LabelIsRoot | tools/frame-lora-train/scripts/merge_all_data.py:61-65 | following parents from any node reaches the node it is labelled with |
| LeakageGroups.HalvingKeepsLabels | tools/frame-lora-train/scripts/merge_all_data.py:62-64 | one halving step keeps every label and moves strictly up, so `find` ends |
| LeakageGroups.ContentIsSaid | tools/frame-lora-train/scripts/merge_all_data.py:50-54 | a side's fingerprint is the contents of the messages with that role, in order, an absent content counting as the empty text; other roles do not matter |
| LeakageGroups.RelatedMeaning | tools/frame-lora-train/scripts/merge_all_data.py:72-79 | two rows are joined exactly when their user messages or their assistant messages have the same contents |
| LeakageGroups.Forest.Find | tools/frame-lora-train/scripts/merge_all_data.py:61-65 | `find` ends, returns the root and changes no row's root |
| LeakageGroups.Forest.Union | tools/frame-lora-train/scripts/merge_all_data.py:67-70 | `union` merges the two trees and no others |
| LeakageGroups.RootsAreComponents | tools/frame-lora-train/scripts/merge_all_data.py:72-79 | when every row sits with the owners of its keys and only linked rows were joined, equal roots are exactly chains of shared sides |
| LeakageGroups.LinkRows | tools/frame-lora-train/scripts/merge_all_data.py:72-79 | after the linking loop two rows have one root if and only if a chain of rows sharing prompts or answers links them |
| LeakageGroups.GroupRows | tools/frame-lora-train/scripts/merge_all_data.py:57-83 | the groups are exactly the components of the sharing relation, every row is in exactly one, in row order; two rows that read the same in their user messages, or in their assistant messages, are in one group whatever else they hold |
| DataSplit.Dedup | tools/frame-lora-train/scripts/merge_all_data.py:159-168 | the loop over a set of seen fingerprints keeps exactly the first row of each conversation |
| DataSplit.FirstRowsMeaning | tools/frame-lora-train/scripts/merge_all_data.py:159-168 | the rows kept are rows of the input, no two have the same conversation, and no conversation is lost |
| DataSplit.FirstRowsAreKept | tools/frame-lora-train/scripts/merge_all_data.py:159-168 | the first row of each conversation is kept, with whatever else it carries |
| DataSplit.KeptRowsAreFirst | tools/frame-lora-train/scripts/merge_all_data.py:159-168 | every row kept is the first of its conversation |
| DataSplit.CapPrefersPriority | tools/frame-lora-train/scripts/merge_all_data.py:163-171 | if the cap keeps a conversation from outside the priority rows, it keeps every priority conversation |
| DataSplit.ComponentsApart | tools/frame-lora-train/scripts/merge_all_data.py:172 | different groups share no prompt and no answer |
| DataSplit.CutLeaksNothing | tools/frame-lora-train/scripts/merge_all_data.py:175-181 | cutting a list of such groups anywhere leaves two sides that share no prompt and no answer |
| DataSplit.SplitGroups | tools/frame-lora-train/scripts/merge_all_data.py:175-181 | whole groups go to validation from the front until the target is reached and not one more; the rest is train, in order, and nothing is lost |
| DataSplit.ValidTarget | tools/frame-lora-train/scripts/merge_all_data.py:174 | the target is the largest whole number of rows within the fraction, and at least one |
| DataSplit.Merge | tools/frame-lora-train/scripts/merge_all_data.py:159-183 | the groups are exactly the components of the deduplicated, capped rows; some order of them is cut where validation first reaches the target; so no row of train and row of valid have the same user messages or the same assistant messages; together they are a permutation of those rows, priority rows go first, and valid has at least the target and less than the target plus the largest component whenever enough rows exist |
| MsgPack.ParseStable | vscode/cli/src/msgpack_rpc.rs:139-162 | more input never changes a complete or malformed verdict |
| MsgPack.VerdictIsFinal | vscode/cli/src/msgpack_rpc.rs:143-151 | a verdict on a prefix is the verdict on the whole, and a complete value is reported incomplete at every earlier cut |
| MsgPack.Markers | vscode/cli/src/msgpack_rpc.rs:139-151 | the kind, width and length that each marker byte announces, marker by marker |
| MsgPack.BigEndian | vscode/cli/src/msgpack_rpc.rs:139-151 | bytes that come first weigh more |
| MsgPack.SignedMeaning | vscode/cli/src/msgpack_rpc.rs:139-151 | a signed number is the one value in its width's range with the given bits |
| MsgPack.GreedyKeepsBytes | vscode/cli/src/msgpack_rpc.rs:155-160 | every byte is in exactly one frame or left in the buffer, in order |
| MsgPack.GreedyContinues | vscode/cli/src/msgpack_rpc.rs:66-98 | frames already taken stay as they are when more bytes arrive, an error stays an error, and decoding goes on from what was left |
| MsgPack.MsgPackCodec.Decode | vscode/cli/src/msgpack_rpc.rs:139-162 | one item is taken off the front with exactly its bytes; otherwise the buffer stays as it is |
| MsgPack.MsgPackCodec.HandleRead | vscode/cli/src/msgpack_rpc.rs:74-98 | one read yields exactly the frames of the old buffer followed by the chunk |
| MsgPack.MsgPackCodec.HandleReads | vscode/cli/src/msgpack_rpc.rs:66-98 | for every way of cutting the stream into reads the frames and the error are those of the whole stream, and frames plus leftover are the bytes read |
| MsgPackEncoding.RoundTrip | vscode/cli/src/msgpack_rpc.rs:177-194 | a value's encoding, whatever follows it, decodes to the value and its own length |
| MsgPackEncoding.EncodingIsShortest | vscode/cli/src/msgpack_rpc.rs:177-194 | no bytes that decode to a value are fewer than its encoding |
| MsgPackEncoding.StreamRoundTrip | vscode/cli/src/msgpack_rpc.rs:177-194 | messages written one after another decode one by one with nothing left over |
| MsgPackEncoding.Receive | vscode/cli/src/msgpack_rpc.rs:66-98 | a codec fed an encoded message list in any chunks returns exactly those messages |
| FramingLoop.RunInOrder | vscode/cli/src/msgpack_rpc.rs:69-109 | over every run the channel holds at most eight messages, is written out first in, first out, and carries the replies of reads in the order the frames asked for them |
| FramingLoop.RepliesWrittenInOrder | vscode/cli/src/msgpack_rpc.rs:69-109 | once the loop is idle with an empty channel, every direct reply and start notice has been written exactly once and in order |
| FramingLoop.DeadlockedWhenFull | vscode/cli/src/msgpack_rpc.rs:62-97 | no step is possible exactly when the loop has something to send and eight messages are queued |
| FramingLoop.ReadCompletesIffItFits | vscode/cli/src/msgpack_rpc.rs:75-97 | handling a read completes if and only if its awaited sends, and what spawned tasks send meanwhile, fit in eight minus what is queued; otherwise the loop is deadlocked and no run leaves that state |
| FramingLoop.Connection.HandleRead | vscode/cli/src/msgpack_rpc.rs:77-97 | with no spawned sender the read branch returns exactly when its sends are at most eight minus what is queued, and has then queued all of them in order |
| FramingLoop.Connection.WriteQueued | vscode/cli/src/msgpack_rpc.rs:99-101 | taking the channel branch until nothing is queued writes the whole queue in order |
| Keyring.ChunksFit | vscode/cli/src/auth.rs:349-366 | the entries written are the string cut into pieces: all but the last end in the continuation marker and fill the platform's limit of 1024 or 131072 bytes, the last does so too if the length is a multiple of the step and else leaves room for the marker; without markers they join to the string |
| Keyring.CutsMeaning | vscode/cli/src/auth.rs:358-362 | the string is stored without a panic if and only if none of the multiples of the step in it falls inside a character |
| Keyring.BoundaryMeaning | vscode/cli/src/auth.rs:358-362 | a cut falls inside a character exactly in front of a UTF-8 continuation byte |
| Keyring.AsciiCutsCleanly | vscode/cli/src/auth.rs:358-362 | an ASCII string is never sliced inside a character |
| Keyring.ReadAfterStore | vscode/cli/src/auth.rs:326-371 | what is read back after a store over any earlier entries: the string, or else what is taken of it followed by what the later old entries read as |
| Keyring.RoundTripOnEmptyKeyring | vscode/cli/src/auth.rs:326-371 | on an empty keyring a string is read back if and only if its length is not a multiple of the step and its last piece does not end in the marker; otherwise nothing is read |
| Keyring.RoundTripOverStaleEntries | vscode/cli/src/auth.rs:326-371 | under the same condition any earlier entries make no difference |
| Keyring.StaleTailIsAppended | vscode/cli/src/auth.rs:349-371 | without it, an old second entry comes back attached to the new value |
| Keyring.KeyringStorage.GetNextEntry | vscode/cli/src/auth.rs:311-322 | the handle for entry i is on entry i, and is opened if it was not open yet |
| Keyring.KeyringStorage.Read | vscode/cli/src/auth.rs:326-347 | the loop returns the joined entries or nothing, and leaves a handle open on every entry it visited |
| Keyring.KeyringStorage.Store | vscode/cli/src/auth.rs:349-371 | storing succeeds exactly when every cut falls between characters, writes exactly the pieces, and leaves other entries alone; at the first cut inside a character it panics, with exactly the pieces before it stored |
| Keyring.KeyringStorage.Clear | vscode/cli/src/auth.rs:373-383 | clearing succeeds exactly when a value can be read and every open handle's entry exists; after a success nothing is read back |
| DeviceFlow.IntervalCountsSlowDowns | vscode/cli/src/auth.rs:811-829 | the interval is always five seconds and five more for each slow-down so far |
| DeviceFlow.IntervalsArePaced | vscode/cli/src/auth.rs:811-829 | the intervals counted from the slow-downs are the waits paced answer by answer |
| DeviceFlow.PollsAreBounded | vscode/cli/src/auth.rs:811-834 | a code of lifetime L > 0 is polled at most L / 5 times, rounded up; one of zero or less never |
| DeviceFlow.SlowDownsAreBounded | vscode/cli/src/auth.rs:811-834 | k slow-downs within a lifetime L imply 5 k (k - 1) / 2 < L |
| DeviceFlow.Poll | vscode/cli/src/auth.rs:811-834 | the first wait is five seconds, and each next one is five longer if the answer between them was a slow-down, by error code or status 429, and else as long; the loop waits before each poll, starts none at or after expiry, stops at the first token and only there or at expiry |
| Singleton.StepKeepsInv | vscode/cli/src/singleton.rs:56-127 | every step of any process keeps the invariant that ties the lock to one owner, the file to the record of a listener, listeners to their owners, and bounds the tries of each client |
| Singleton.OneSingleton | vscode/cli/src/singleton.rs:56-106 | at most one process is a listening singleton; it holds the lock and the file names exactly its socket and process |
| Singleton.ClientsReachTheHolder | vscode/cli/src/singleton.rs:110-139 | a client that connects is connected to the process holding the lock at that moment, however stale the record it read; if the record was whole, to the process it names |
| Singleton.ReadingFindsTheSingleton | vscode/cli/src/singleton.rs:110-139 | while a singleton listens, a client that reads the record and tries at once is connected to it |
| Singleton.TriesAreBounded | vscode/cli/src/singleton.rs:108-153 | no client tries to connect more than 11 * 6 times |
| Singleton.SixTriesPerRead | vscode/cli/src/singleton.rs:141-156 | a client whose socket nobody listens on makes six tries, then reads again, and gives up after the eleventh read |
| Singleton.WhatAClientReads | vscode/cli/src/singleton.rs:56-139 | what a client tries after reading a record that is whole, torn but readable, or unreadable |
| Singleton.ExitIsFinal | vscode/cli/src/singleton.rs:108-139 | a client that sees the recorded process gone gives up at once |
| Singleton.Client.RetryConnect | vscode/cli/src/singleton.rs:141-156 | up to six tries at one socket, ending at the first connection or at the exit of the recorded process |
| Singleton.Client.Connect | vscode/cli/src/singleton.rs:110-139 | up to eleven reads of the record with six tries for each that is readable; it fails only after the eleventh with every try refused |
| TextEdits.ReverseIsSimultaneous | vscode/scripts/sync-agent-host-protocol.ts:55-60 | for edits in order that do not overlap, applying them last to first is replacing all spans of the original at once, whatever the lengths |
| TextEdits.UntouchedIsKept | vscode/scripts/sync-agent-host-protocol.ts:55-60 | every character outside the spans is still there, moved by exactly what earlier edits add and drop |
| TextEdits.PastTheEnd | vscode/scripts/sync-agent-host-protocol.ts:55-60 | an edit that starts past the end appends, and one that only ends past it replaces the rest |
| TextEdits.OutOfOrderMisses | vscode/scripts/sync-agent-host-protocol.ts:55-60 | an out-of-order list that lands in the wrong place |
| TextEdits.ApplyEdits | vscode/scripts/sync-agent-host-protocol.ts:55-60 | the loop returns the simultaneous substitution for every ordered list of edits |
| ImportMerge.OneImportPerModule | vscode/scripts/sync-agent-host-protocol.ts:176-219 | all other lines keep their places, and each imported module has exactly one import, where its first one stood |
| ImportMerge.BindingsAreKept | vscode/scripts/sync-agent-host-protocol.ts:202-216 | each module is imported for the same value names and the same type names as before |
| ImportMerge.LineForModule | vscode/scripts/sync-agent-host-protocol.ts:180-216 | the line of a module is a type import if and only if no value import of it names anything; its names stand in order of first occurrence, each once, values before types |
| ImportMerge.UnchangedIffTidy | vscode/scripts/sync-agent-host-protocol.ts:158-220 | a file comes back unchanged if and only if it imports each module once, repeats no name in an import and has no empty value import |
| ImportMerge.SecondPass | vscode/scripts/sync-agent-host-protocol.ts:158-220 | a second pass changes nothing if and only if no name is imported from one module both in a type import and as `type name` |
| ImportMerge.ThirdPass | vscode/scripts/sync-agent-host-protocol.ts:158-220 | a third pass never changes anything |
| ImportMerge.FailsOnStrayPlaceholder | vscode/scripts/sync-agent-host-protocol.ts:202-206 | the pass fails exactly when a line of the file looks like a placeholder for a module it does not import |
| ImportMerge.MergeDuplicateImports | vscode/scripts/sync-agent-host-protocol.ts:171-219 | the two loops return the merged lines for every file without such a line, and fail exactly as stated |
| LruCache.ListFollowsRecency | vscode/cli/src/download_cache.rs:63-139 | over every run, whatever fails or is deleted: the list is a leading part of all names by recency of use, without duplicates, growing by at most one at a time, at most five longer than the failed removals, and no folder is on disk that it has lost |
| LruCache.HistoryIsUses | vscode/cli/src/download_cache.rs:51-117 | the uses that count, told from the calls and their outcomes alone: a folder found, a folder built, and the forgetting by a deletion |
| LruCache.RecencyMeaning | vscode/cli/src/download_cache.rs:119-125 | the names by recency are those last used and not forgotten since, each once, the latest use first |
| LruCache.ExactlyTheMostRecent | vscode/cli/src/download_cache.rs:119-139 | with no deletion and no failed removal the list is exactly the five names used most recently, the uses being told from the calls |
| LruCache.EvictsTheOldestOther | vscode/cli/src/download_cache.rs:126-135 | a use removes at most one folder, the oldest other than the one used, and only with five names listed |
| LruCache.NeverEvictsTheNewest | vscode/cli/src/download_cache.rs:119-139 | the name just used stays first in the list and its folder stays on disk |
| LruCache.DropsTheLast | vscode/cli/src/download_cache.rs:126-135 | after a use the last name is dropped exactly if there are more than five and its folder is gone or can be removed |
| LruCache.DownloadCache.Touch | vscode/cli/src/download_cache.rs:119-139 | move to front, then drop the last if too many and its folder is gone or can be removed |
| LruCache.DownloadCache.Exists | vscode/cli/src/download_cache.rs:51-60 | a folder on disk counts as used and its name comes first in the list; an absent one changes nothing |
| LruCache.DownloadCache.Delete | vscode/cli/src/download_cache.rs:63-72 | the name and its folder go, unless the folder is there and cannot be removed, when nothing changes |
| LruCache.DownloadCache.Create | vscode/cli/src/download_cache.rs:78-117 | it succeeds exactly when the folder was there, or was built and one of 21 renames worked; an existing folder does not count as used |

## Left out

- Typed decoding by serde: a `Target` says which decoded values fit the requested type, so a value of the wrong
  shape is reported when it is complete, where the original may report it earlier.
- The decoder's nesting limit is a parameter; encoded floats are taken as their bytes, and strings are not
  checked to be UTF-8.
- The asynchronous runtime, sockets and pipes: steps with stated effects. A write half is an identity; a failed
  write makes the pipe broken for good.
- That no stream is inserted under an id that still has a record is an assumption of the stream theorems;
  `RpcStreams.InsertIsSafeIffUnused` says that it is also needed.
- RpcServer.ReplyDiscipline: sends on the channel succeed in this model; a closed channel ends the connection.
- RpcServer.StreamDiscipline: stream ids drawn for one run are taken to be different.
- Panics on registering a method twice, and logging.
- Lint selectors, parameter names and finding the functions to check: the walk starts from a body and an
  accessor name. The `visited` set has no effect on trees and is not modelled. Exceptions are prefixes of a tried
  block. A declaration `await using` waits again at the end of its block; it is not modelled, nor are variables of
  an inner block that have the accessor's name.
- AccessorSoundness.LintIsSound: what callees and other values do with an accessor they were handed, what a nested
  function does after it has itself suspended, and the `arguments` object are not part of a path.
- Fingerprints are taken as injective: the contents themselves, not their SHA-1. An object inside a message is
  taken without the order of its keys.
- Random shuffles are arbitrary permutations. Loading, validating and canonicalizing rows, sampling per source
  and writing the manifest are left out; the cap is not negative, and the fraction of validation rows is a real
  number, so floating-point rounding of the target is not modelled.
- FramingLoop.ReadCompletesIffItFits: a read whose bytes fail to decode ends the loop; that is stated in
  `RpcConnection.Serve`, not here. The shutdown branch and flushing are left out.
- RpcConnection.Serve: the channel is emptied between reads and no spawned task sends; other schedules are in
  `FramingLoop`. Which parameters parse, how callbacks end and which stream ids are drawn are given per frame, and
  a response without an id, which panics, is in `RpcCalls`.
- Encryption, and the JSON fallback of `unseal`: the keyring stores and returns the sealed string. Keyring errors
  other than a missing entry, the Linux thread wrapper and file storage are left out.
- DeviceFlow.Poll: one device code; requesting a new one after expiry is left out, and the clock never goes back.
- Token refresh timing in `keep_token_alive`, prompts and login flows.
- Singleton.StepKeepsInv: the lock is exclusive and socket names are fresh, as the operating system and random
  names provide; a crash releases a process's lock and socket at once. Failing to open the lock file is left out.
- The regular expressions that recognize imports, joining of multi-line imports, TypeScript's formatter, header
  stripping and indentation. Names in a type-only import are plain, as TypeScript requires.
- LruCache.DownloadCache.Touch: saving the list succeeds; a failed save, a partly removed folder and other
  processes sharing the cache directory are left out.
- Dataset generators, miners, training control, installers, the website and the other lint rules: templates and
  plumbing with nothing harder to prove.
