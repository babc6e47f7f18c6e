# Verified models of verl's weight transfer, offloading, replay and layout code

This project models the parts of verl whose correctness depends on interleavings, on arithmetic that has to
come out exactly, or on two pieces of code agreeing with each other, and proves that they do what they are
for. It is organised by subject, one module per subject and file:

- **Weight transfer.** `WeightChunks` splits and merges weights, `BucketPacking` is the bucket loop that the
  engines share, `BucketTransfer` holds what the transports have in common. `NixlAgent`, `NixlChain`, `NixlSafety`,
  `NixlProgress` and `NixlTopology` are the agents and the relay chain of the NIXL engine; `NcclBroadcast`,
  `NcclSafety` and `NcclProgress` the broadcast of the NCCL engine. These two are transition systems: every rank's
  program runs from await to await, and in between the other ranks, the message queues and the engines that move
  bytes do as they like, one byte at a time. `KimiBuckets` has the per-rank buckets and the receive loop of the Kimi
  engine, a loop into which the bytes of the next broadcast arrive, in any order, before and between its yields.
- **Activation offloading.** `OffloadSpec` gives the handler's operations on values, `OffloadHandler` the class
  whose methods update the dictionaries and counters in place and are proved to do the same. `OffloadInvariant` is
  what every operation keeps, and `OffloadRuns` what holds over any number of training iterations.
- **Rollout replay.** `ReplayBuffer` is the polled mirror of the queue, `ReplaySystem` the trainer, the workers, the
  queue and the polling thread around it, `ReplayProgress` when a sample returns, `ReplayCleanup` what becomes of the
  sampled keys, `TrajectoryKeys` the output keys, `SessionScores` the selection and scoring of sessions.
- **Layouts and partitions.** `QkvLayout` (fused attention and MLP weights), `PipelineShards` (the search for layer
  counts), `RankTiling` (layer ranges, renumbering, file numbers), `ParallelLoad` (which rank loads and broadcasts
  what).
- **Batches and kernels.** `BatchAlgebra` (pad, chunk, concatenate), `PadUnpad` and `PadGradients` (packing tokens and
  its hand-written gradients), `GroupStats` (one-pass variance by group).

`Wrappers`, `Orders`, `Rows` and `Arithmetic` are shared helpers. Tensors are sequences of bytes or of rows,
floating-point numbers are reals, exceptions and failed asserts are error results.

## Where the code and its promises differ

- `split_weight_chunks` emits nothing for a weight without bytes, so such a weight never arrives:
  `WeightChunks.RoundTripExactly` says that the transfer is the identity exactly on lists without one.
- `NIXLCheckpointEngine.build_topology` with a single rollout rank returns a list of the wrong length, which the
  manager's own assert rejects: `NixlTopology.TopologyAcceptedIff`.
- `get_notification` reuses its argument as a loop variable, so that it can return another agent's notification:
  `NixlAgent.SecondAgentAnswers`, with the exact condition in `NixlAgent.AnswersTheRequestIff`. Where only the agent
  asked for notifies, as in the chain, it is a FIFO queue (`NixlAgent.OneNotifierIsFifo`), which is what `NixlChain`
  has on every link.
- `ReplayBuffer.sample(batch_size=...)` compares every tag with `None` and returns an empty batch at once:
  `ReplayBuffer.BatchSizeModeFindsNothing`.
- The offload handler shares one host copy among tensors with the same dtype and sum of address and offset. Over runs,
  the pops of an offloaded group are right exactly if tensors with the same of both have the same row-major contents
  (`OffloadRuns.PopsAreRightIff`); slices at different offsets come back right (`OffloadRuns.SlicesComeBackRight`), a
  tensor saved with its transpose comes back wrong (`OffloadRuns.TransposedViewComesBackWrong`). With different numbers
  of elements the copy would not even view (`OffloadInvariant.ViewsFitIff`).
- `num_offload_group` may, by its comment, equal the number of groups. Every pop is still right, but then a window
  closes at the group's own commit (`OffloadInvariant.WindowsFitIff`) and only group 0 ever leaves the device:
  `OffloadRuns.LaterGroupsLeaveIff`. With no offload groups the first commit fails:
  `OffloadInvariant.NoOffloadGroupsFail`.
- `get_dynamic_pipeline_shards` has no answer for some sizes that could be divided, such as 5 layers on 4 stages:
  `PipelineShards.FiveLayersFourStages`; the exact condition is in the contract of the method.
- A stage without layers shifts the numbering of all later stages by one: `RankTiling.RenumberingTilesIff`.
- `cu_seqlens` of `unpad_input` delimits the rows exactly when no position is set in both masks
  (`PadUnpad.UnpadDelimitsIff`); one token in both is counted twice (`PadUnpad.OverlapCountsTwice`).
- `seqused` of `unpad_input` is documented to count the tokens of both masks, and counts those of the attention mask
  only: `PadUnpad.SeqUsedIff`.
- The cleanup after a step takes the sampled outputs out of queue and buffer, but the entry of every prompt that has
  ended stays in the queue for the whole run: `ReplayProgress.EndsAreQueued`.
- A session loses its GRPO score when the mask of its final row is never set, although another row's is:
  `SessionScores.SessionKeepsItsScoreIff`, with an input in `SessionScores.LostScore`.
- `DataProto.chunk` skips its check for equal chunks when automatic padding is enabled, but fails all the same when
  torch.chunk returns fewer pieces, as for 5 rows in 4 chunks: `BatchAlgebra.ChunkData`,
  `BatchAlgebra.FiveRowsFourChunks`.
- The overwriting `scatter_` is a gradient only for distinct indices: `PadGradients.ScatterBackwardIff`.

## Model

| member | source | states |
|---|---|---|
| WeightChunks.SplitWeightChunks | verl/checkpoint_engine/base.py:495-521 | the loop emits, weight by weight, the chunks of SplitAll |
| WeightChunks.Merger.Accept | verl/checkpoint_engine/base.py:537-563 | one chunk through the in-place merge buffer: the new state, the weight yielded or the failure, as MergeStep has it |
| WeightChunks.MergeWeightChunks | verl/checkpoint_engine/base.py:524-563 | driving the merger over any chunks, whatever their metadata, yields what MergeAll says, or the first failure |
| WeightChunks.MergeIsSound | verl/checkpoint_engine/base.py:524-563 | chunks that pass every assert, whatever they are, are cuts of the yielded weights one after the other, with offsets that follow on, and then the chunks of the weight in progress |
| WeightChunks.CutMerges | verl/checkpoint_engine/base.py:537-563 | any cut of a weight into nonempty chunks that follow on merges to it, not only the one that split makes |
| WeightChunks.CopyChunk | verl/checkpoint_engine/base.py:559 | writes one slice of a buffer and nothing else |
| WeightChunks.MergeUndoesSplit | verl/checkpoint_engine/base.py:507-563 | merging the split of any valid weights gives back those with bytes, in order, whatever the bucket size |
| WeightChunks.RoundTripExactly | verl/checkpoint_engine/base.py:510-512 | split then merge is the identity if and only if no weight is empty |
| BucketPacking.PackBuckets | verl/checkpoint_engine/nccl_checkpoint_engine.py:244-292 | packing the split of any distinctly named weights by filling and swapping two arrays posts the buckets of PackAll |
| BucketPacking.PackChunks | verl/checkpoint_engine/nccl_checkpoint_engine.py:250-292 | the loop does so for any chunks of which only the last of a weight are short, and both its asserts hold |
| BucketPacking.NoNameTwice | verl/checkpoint_engine/nccl_checkpoint_engine.py:273-274 | no bucket is given two chunks of one weight |
| BucketPacking.PackKeeps | verl/checkpoint_engine/nccl_checkpoint_engine.py:250-279 | at every point entries lie side by side, names are unique, and all chunks so far can be read back in order |
| BucketPacking.UnpackUndoesPack | verl/checkpoint_engine/nccl_checkpoint_engine.py:250-294 | reading the posted buckets gives the chunks back, and every bucket fits with disjoint entries |
| BucketPacking.BucketsTakeTurns | verl/checkpoint_engine/nccl_checkpoint_engine.py:250-294 | a bucket goes out only when the next chunk does not fit into it, the two buffers go out in turn, and behind its chunks a buffer is what it was when it was last posted |
| BucketPacking.TransferRoundTrip | verl/checkpoint_engine/nccl_checkpoint_engine.py:250-361 | split, pack, unpack and merge deliver every weight with bytes, in order, for any sizes and any stale buffer contents |
| BucketPacking.SplitAllShape | verl/checkpoint_engine/base.py:507-521 | chunks of distinctly named weights fit, and only the last chunk of a weight is short |
| BucketPacking.BucketCountBound | verl/checkpoint_engine/nccl_checkpoint_engine.py:250-279 | n buckets satisfy (n - 1) * bucket_size < 2 * total bytes |
| BucketTransfer.YieldedIsPrefix | verl/checkpoint_engine/nixl_checkpoint_engine.py:485-515 | what a receiver has yielded in the middle of a bucket is a prefix of all chunks, and is all of them at the end |
| NixlAgent.NixlAgent.GetNotification | verl/checkpoint_engine/nixl_checkpoint_engine.py:134-140 | for any polls, the loop with its overwritten argument leaves the queues and returns the notification that AwaitNotification says |
| NixlAgent.NixlAgent.ReadMessage | verl/checkpoint_engine/nixl_checkpoint_engine.py:128-132 | reading a message leaves the queues and returns the oldest message of the agent asked for, or nothing if it has sent none |
| NixlAgent.AnswersTheRequestIff | verl/checkpoint_engine/nixl_checkpoint_engine.py:134-140 | a call returns the requested agent's notification if and only if one was queued or the first nonempty poll lists that agent last |
| NixlAgent.SecondAgentAnswers | verl/checkpoint_engine/nixl_checkpoint_engine.py:136-140 | when two agents notify at once, the call for the first returns what the second sent |
| NixlAgent.NotificationsAreKept | verl/checkpoint_engine/nixl_checkpoint_engine.py:134-140 | whoever it answers, it takes that agent's oldest notification and loses none of any agent |
| NixlAgent.OneNotifierIsFifo | verl/checkpoint_engine/nixl_checkpoint_engine.py:170-174 | when only the requested agent notifies, n calls return exactly when it has sent n notifications, and then the first n in order |
| NixlAgent.MessagesAreKept | verl/checkpoint_engine/nixl_checkpoint_engine.py:128-132 | the message returned is the requested agent's oldest, whoever else sends, and no other is lost |
| NixlAgent.MessageReturnsIff | verl/checkpoint_engine/nixl_checkpoint_engine.py:128-132 | a call returns if and only if a message of the agent asked for is queued or arrives, and looks at no arrival after the first one from it |
| NixlAgent.MessagesAreFifo | verl/checkpoint_engine/nixl_checkpoint_engine.py:128-132 | n calls return exactly when the agent has sent n messages, and then the first n in order, whoever else sends |
| NixlChain.InitInv | verl/checkpoint_engine/nixl_checkpoint_engine.py:385-392 | the invariant of the chain holds initially |
| NixlSafety.ViewKeeps | verl/checkpoint_engine/nixl_checkpoint_engine.py:393-432 | every program step of a rank keeps its own invariant and that of both its links |
| NixlSafety.SourceIsIntact | verl/checkpoint_engine/nixl_checkpoint_engine.py:469-500 | while a read is in flight its source buffer still holds the bucket that was announced |
| NixlSafety.StepKeeps | verl/checkpoint_engine/nixl_checkpoint_engine.py:385-519 | the invariant survives every step of every rank and transfer engine |
| NixlSafety.RunInv | verl/checkpoint_engine/nixl_checkpoint_engine.py:385-519 | the invariant holds in every state of every run, for any number of ranks and buckets |
| NixlSafety.BuffersInUseAreStable | verl/checkpoint_engine/nixl_checkpoint_engine.py:411-421 | no step of anybody writes a buffer that the next rank has yet to finish reading or that is still being yielded from |
| NixlSafety.NotifyKeysMatch | verl/checkpoint_engine/nixl_checkpoint_engine.py:170-174 | the assert on the notify key never fails |
| NixlSafety.ReceiversYieldWhatWasPacked | verl/checkpoint_engine/nixl_checkpoint_engine.py:451-519 | at every moment a receiver has yielded a prefix of the sender's chunks, and all of them when it is done |
| NixlSafety.RelaysBeforeYielding | verl/checkpoint_engine/nixl_checkpoint_engine.py:468-519 | in every run, once a chunk of a bucket has been yielded, the bucket has been posted to the next rank and the read of the one after it has begun |
| NixlSafety.ReturnedMeansRead | verl/checkpoint_engine/nixl_checkpoint_engine.py:427-432 | in every run, when a rank has returned, the next rank has read every bucket, and nothing reads the rank's buffers |
| NixlSafety.ChainDeliversWeights | verl/checkpoint_engine/nixl_checkpoint_engine.py:371-443 | a receiver that has finished has merged exactly the nonempty weights of rank 0, in order, under every interleaving |
| NixlProgress.RankMoves | verl/checkpoint_engine/nixl_checkpoint_engine.py:396-432 | whatever a rank waits for, some rank or transfer can move |
| NixlProgress.NeverStuck | verl/checkpoint_engine/nixl_checkpoint_engine.py:456-519 | no reachable state in which a rank is unfinished is stuck |
| NixlProgress.StepWorks | verl/checkpoint_engine/nixl_checkpoint_engine.py:396-432 | every step uses up work |
| NixlProgress.RunsEnd | verl/checkpoint_engine/nixl_checkpoint_engine.py:385-519 | runs are bounded, and one that cannot go on has finished on all ranks |
| NixlTopology.TopologyAcceptedIff | verl/checkpoint_engine/nixl_checkpoint_engine.py:289-305 | the keyword lists have the asserted lengths if and only if there is not exactly one rollout rank |
| NixlTopology.TopologyIsChain | verl/checkpoint_engine/nixl_checkpoint_engine.py:289-331 | with two rollout ranks or more the workers are ranks 0, 1, 2, ... of one chain, each with its neighbours as previous and next, and every role check passes |
| NcclBroadcast.InitInv | verl/checkpoint_engine/nccl_checkpoint_engine.py:244-249 | the invariant of the broadcast protocol holds initially |
| NcclSafety.StepKeeps | verl/checkpoint_engine/nccl_checkpoint_engine.py:244-361 | the invariant survives every step of every program, operation and transfer |
| NcclSafety.RunInv | verl/checkpoint_engine/nccl_checkpoint_engine.py:244-361 | the invariant holds in every state of every run |
| NcclSafety.OneBroadcastInFlight | verl/checkpoint_engine/nccl_checkpoint_engine.py:256-266 | no rank ever launches a broadcast while one of its own is in flight |
| NcclSafety.BuffersAreApart | verl/checkpoint_engine/nccl_checkpoint_engine.py:314-356 | a broadcast never has the buffer being filled on rank 0 or yielded from on a receiver |
| NcclSafety.SentBufferIsStable | verl/checkpoint_engine/nccl_checkpoint_engine.py:269-279 | no step writes the buffer that rank 0 is broadcasting |
| NcclSafety.YieldedBufferIsStable | verl/checkpoint_engine/nccl_checkpoint_engine.py:344-356 | no step writes the buffer that a receiver still has to yield from |
| NcclSafety.SourceIsIntact | verl/checkpoint_engine/nccl_checkpoint_engine.py:80-90 | until a broadcast has been waited for, rank 0 still has the bucket of its number in the buffer it sends |
| NcclSafety.CopyKeeps | verl/checkpoint_engine/nccl_checkpoint_engine.py:89-90 | a byte that arrives belongs to the bucket with the number of the receiver's own call, and keeps its invariant |
| NcclSafety.BroadcastsMatchBuckets | verl/checkpoint_engine/nccl_checkpoint_engine.py:80-99 | the k-th broadcast that returns on a receiver carries the metadata and the bytes of the k-th flushed bucket |
| NcclSafety.ReceiversYieldWhatWasPacked | verl/checkpoint_engine/nccl_checkpoint_engine.py:307-361 | a receiver has always yielded a prefix of the sender's chunks, and all of them at the end |
| NcclSafety.JoinsBeforeYielding | verl/checkpoint_engine/nccl_checkpoint_engine.py:333-356 | in every run, once a chunk of a bucket has been yielded, the receiver has joined the broadcast of the next |
| NcclSafety.ReturnedMeansSent | verl/checkpoint_engine/nccl_checkpoint_engine.py:283-294 | in every run, when rank 0 has returned, it has made one call for every bucket and all their bytes have left its buffers |
| NcclSafety.BroadcastDeliversWeights | verl/checkpoint_engine/nccl_checkpoint_engine.py:230-305 | a finished receiver has merged exactly the nonempty weights of rank 0 |
| NcclProgress.NeverStuck | verl/checkpoint_engine/nccl_checkpoint_engine.py:244-361 | no reachable unfinished state is stuck, even if a broadcast returns on rank 0 only when all receivers have it |
| NcclProgress.RunsEnd | verl/checkpoint_engine/nccl_checkpoint_engine.py:244-361 | every run is bounded, and one that cannot go on has finished everywhere |
| KimiBuckets.NamedTensorBuckets | verl/checkpoint_engine/kimi_checkpoint_engine.py:37-63 | the generator yields the buckets of PackAllTensors on the rank's tensors, repeated names overwriting, or refuses a bucket size that is not positive |
| KimiBuckets.BucketsAreRuns | verl/checkpoint_engine/kimi_checkpoint_engine.py:47-63 | whatever the names, the buckets come from consecutive runs of the rank's tensors, each as long as the limit allows, overwritten tensors counted |
| KimiBuckets.OverwrittenIs | verl/checkpoint_engine/kimi_checkpoint_engine.py:53-60 | the bucket of a run has each name once, in the order of first meeting, with the latest tensor |
| KimiBuckets.BucketsAreGood | verl/checkpoint_engine/kimi_checkpoint_engine.py:47-63 | whatever the names, each bucket fits or is one oversized tensor, and loading the buckets gives what loading the rank's tensors gives |
| KimiBuckets.RankBucketsInOrder | verl/checkpoint_engine/kimi_checkpoint_engine.py:47-63 | with distinct names in the model a rank's buckets hold its tensors in order, and none was closed early |
| KimiBuckets.MineAt | verl/checkpoint_engine/kimi_checkpoint_engine.py:49-51 | the k-th tensor of a rank is tensor k * world_size + rank of the model |
| KimiBuckets.EmittedSomewhere | verl/checkpoint_engine/kimi_checkpoint_engine.py:49-51 | every tensor is emitted by some rank |
| KimiBuckets.EmittedOnce | verl/checkpoint_engine/kimi_checkpoint_engine.py:49-51 | and only in one place of one rank |
| KimiBuckets.Round | verl/checkpoint_engine/kimi_checkpoint_engine.py:122-155 | one round yields the previous bucket and ends with the next one in the other half, whichever of its bytes arrive before which yield |
| KimiBuckets.ReceiveTensor | verl/checkpoint_engine/kimi_checkpoint_engine.py:105-166 | the receive loop yields all buckets in order, for any sets of bytes arriving before each yield; it fails on an empty list |
| OffloadSpec.BuildWindowMap | verl/utils/activation_offload.py:250-257 | the loop with its running constant computes the closed form of Window |
| OffloadInvariant.WindowMapFits | verl/utils/activation_offload.py:250-257 | for all sizes the window map is strictly increasing and ends at the last group |
| OffloadInvariant.WindowsAreEven | verl/utils/activation_offload.py:250-257 | between two windows lie as many layers as an even division gives, and the longer shares come first |
| OffloadInvariant.WindowsFitIff | verl/utils/activation_offload.py:228-257 | every window closes after its group's own commit if and only if fewer groups are offloaded than there are |
| OffloadInvariant.NoOffloadGroupsFail | verl/utils/activation_offload.py:333-345 | without offload groups the first commit looks up a missing key |
| OffloadInvariant.TightWindowMap | verl/utils/activation_offload.py:543 | with one offload group fewer than groups the map is i to i + 1 |
| OffloadHandler.AsyncDoubleBufferGroupOffloadHandler.constructor | verl/utils/activation_offload.py:228-261 | a new handler is empty and has the window map of its sizes |
| OffloadHandler.AsyncDoubleBufferGroupOffloadHandler.TensorPush | verl/utils/activation_offload.py:263-283 | push in place is Push of the abstract state; a tensor that is not offloaded is handed back as its own tag |
| OffloadHandler.AsyncDoubleBufferGroupOffloadHandler.TensorPop | verl/utils/activation_offload.py:285-296 | pop in place is Pop of the abstract state, both asserts included |
| OffloadHandler.AsyncDoubleBufferGroupOffloadHandler.BulkOffloadGroup | verl/utils/activation_offload.py:298-317 | visiting all tags replaces exactly one group's tensors by keys and records the copies of CopiesOnHost |
| OffloadHandler.AsyncDoubleBufferGroupOffloadHandler.SynchronizeOnGroupCommitForward | verl/utils/activation_offload.py:319-345 | kick-off, freeing and offloading of the next group as in Synchronized, or the fault |
| OffloadHandler.AsyncDoubleBufferGroupOffloadHandler.OnGroupCommitForward | verl/utils/activation_offload.py:347-352 | the forward commit is CommitForward |
| OffloadHandler.AsyncDoubleBufferGroupOffloadHandler.BulkReloadGroup | verl/utils/activation_offload.py:354-371 | one group's keys are replaced by recovered tensors and its backups are dropped |
| OffloadHandler.AsyncDoubleBufferGroupOffloadHandler.OnGroupCommitBackward | verl/utils/activation_offload.py:373-395 | the backward commit is CommitBackward |
| OffloadRuns.DeduplicationIsExactIff | verl/utils/activation_offload.py:307-315 | every tensor of a group finds its own contents again if and only if equal address + offset and dtype mean equal contents |
| OffloadInvariant.ViewsFitIff | verl/utils/activation_offload.py:364-367 | the shared copies can be viewed as every tensor of the group if and only if equal address + offset and dtype mean equally many elements |
| OffloadRuns.PopsAreRightIff | verl/utils/activation_offload.py:307-315 | before a group's first pop in any run, all its pops return what was pushed if and only if it never left the device or address + offset and dtype determine contents |
| OffloadRuns.TransposedViewComesBackWrong | verl/utils/activation_offload.py:35-37 | a run that saves a tensor and its transpose in one offloaded group and pops the transpose wrong |
| OffloadRuns.SlicesComeBackRight | verl/utils/activation_offload.py:35-37 | two slices of one storage, saved in one offloaded group, come back each as itself |
| OffloadRuns.CopiesOnHost | verl/utils/activation_offload.py:298-317 | in every run a group on the host has one copy for each address + offset and dtype of its tensors, that of the first of them, and no others |
| OffloadRuns.PendingCopiesAreKept | verl/utils/activation_offload.py:319-345 | in every run the device tensors of a group stay referenced until the compute stream has waited for their copy |
| OffloadRuns.PopUndoesPush | verl/utils/activation_offload.py:263-296 | a pop right after its push gives the tensor and the maps as before, and a second pop fails |
| OffloadRuns.MovesOnce | verl/utils/activation_offload.py:298-371 | a group on the host is neither offloaded again nor popped from, one that is back is not reloaded, and its copy is outstanding from then on |
| OffloadInvariant.EventStep | verl/utils/activation_offload.py:263-395 | every push, commit and pop that autograd may cause succeeds and keeps the invariant |
| OffloadRuns.RunsSucceed | verl/utils/activation_offload.py:263-395 | with one or more offload groups and at most as many as groups, no run over any number of iterations fails an assert or misses a key |
| OffloadRuns.PopsReturn | verl/utils/activation_offload.py:285-296 | every pop succeeds after its copy has been waited for, and returns the tensor itself or its shape over the shared copy |
| OffloadRuns.PopsReturnWhatWasPushed | verl/utils/activation_offload.py:285-296 | every pop returns the pushed contents if, in the offloaded groups, address + offset and dtype determine them |
| OffloadRuns.IterationsLeaveNothing | verl/utils/activation_offload.py:392-395 | after a full forward and backward all maps are empty and both counters are 0 |
| OffloadRuns.OnHostAtTheTurn | verl/utils/activation_offload.py:319-352 | when the backward pass begins, exactly the offloaded groups are on the host |
| OffloadRuns.LaterGroupsLeaveIff | verl/utils/activation_offload.py:228-257 | an offload group after the first reaches the host before the backward pass if and only if fewer groups are offloaded than there are |
| OffloadRuns.AtMostTwoGroupsOnDevice | verl/utils/activation_offload.py:500-504 | set up as its caller does, the handler holds device tensors of the current and the previous group only |
| ReplayBuffer.ReplayBuffer.Add | verl/trainer/main_ppo_sync.py:215-227 | merging items in place is PutAll, and other partitions stay |
| ReplayBuffer.AddMeaning | verl/trainer/main_ppo_sync.py:215-227 | a key ends with every tag it is given and the other tags it had, and keys that were there keep their places |
| ReplayBuffer.ReplayBuffer.Remove | verl/trainer/main_ppo_sync.py:229-240 | deleting keys in place is DropAll, and other partitions stay |
| ReplayBuffer.RemoveMeaning | verl/trainer/main_ppo_sync.py:229-240 | exactly the given keys go; the others keep their tags and their order |
| ReplayBuffer.ReplayBuffer.Poll | verl/trainer/main_ppo_sync.py:258-275 | one pass over the partition, breaking off at a running prompt, is Scan |
| ReplayBuffer.ScanMeaning | verl/trainer/main_ppo_sync.py:264-275 | the pass waits if and only if some key of the step is running, and else returns exactly its successful keys, once each |
| ReplayBuffer.FirstDecides | verl/trainer/main_ppo_sync.py:264-272 | the first entry that lacks a tag or is running decides the pass, whatever comes after it |
| ReplayBuffer.BatchInOrder | verl/trainer/main_ppo_sync.py:264-275 | the keys of a batch stand in the order of the dictionary |
| ReplayBuffer.BatchSizeModeFindsNothing | verl/trainer/main_ppo_sync.py:242-275 | sampling by batch size finds nothing |
| ReplaySystem.EventStep | verl/trainer/main_ppo_sync.py:202-275 | the system invariant survives every event of trainer, workers, queue and polling thread |
| ReplaySystem.RunInv | verl/trainer/main_ppo_sync.py:449-469 | and so holds in every run |
| ReplaySystem.SampleIsComplete | verl/trainer/main_ppo_sync.py:258-275 | when sample returns, all prompts of the step have ended, and the batch is the step's outputs, each once, with every output of every prompt that finished |
| ReplaySystem.NoKeyIsSampledTwice | verl/trainer/main_ppo_sync.py:1565-1570 | no key is in two training samples, even if a stale listing puts it back |
| ReplayProgress.NeverMissingTag | verl/trainer/main_ppo_sync.py:264-272 | in no run does a pass of sample meet an entry without its tags |
| ReplayProgress.SampleReturns | verl/trainer/main_ppo_sync.py:202-213 | once all prompts of the step have ended and a listing made after that has been applied, sample returns at its next pass |
| ReplayProgress.EndsAreQueued | verl/trainer/main_ppo_sync.py:1564-1566 | in every reachable state the entry of every prompt that has ended is in the queue: the cleanup never takes one away |
| ReplayCleanup.ClearedForGood | verl/trainer/main_ppo_sync.py:1565 | a key cleared from the queue is in no later state of the queue |
| ReplayCleanup.RemovedForGood | verl/trainer/main_ppo_sync.py:1565-1566 | a sampled key removed from the buffer is in no later state of buffer or queue, unless a listing taken before is still to be applied |
| ReplayCleanup.StaleListingPutsBackIff | verl/trainer/main_ppo_sync.py:449-469 | an absent key comes into the buffer by a listing if and only if the listing has it |
| TrajectoryKeys.ParseUndoesPrint | verl/trainer/main_ppo_sync.py:147-151 | rsplit and int read back what the key was printed from, for every uid |
| TrajectoryKeys.RSplitIs | verl/trainer/main_ppo_sync.py:147 | the fields joined are the key, only the first may contain an underscore, and then only if all splits are used |
| TrajectoryKeys.ParsesIff | verl/trainer/main_ppo_sync.py:149 | an index is read if and only if it is a nonempty string of digits, whatever zeros it begins with |
| TrajectoryKeys.ParseKeyIs | verl/trainer/main_ppo_sync.py:147-151 | what is read out of any key: all before the last underscore, and the number after it; other keys are refused |
| TrajectoryKeys.KeysAreInjective | verl/trainer/main_ppo_sync.py:380-396 | distinct outputs have distinct keys, distinct sessions distinct session keys |
| SessionScores.ParseRows | verl/trainer/main_ppo_sync.py:147-151 | all keys are parsed, or one without three fields fails the assert |
| SessionScores.SelectFinalSessions | verl/trainer/main_ppo_sync.py:144-162 | every row is mapped to the row of greatest index in its own session, each session once, in the order in which the rows meet them |
| SessionScores.ValidationFinals | verl/trainer/main_ppo_sync.py:868-879 | for any keys, the positions that _validate keeps are exactly those that no later entry of their session displaces, in order; an index that is no number raises |
| SessionScores.WholeCountsAsZero | verl/trainer/main_ppo_sync.py:869-876 | a key without three fields counts as index 0 of its session |
| SessionScores.ValidationKeepsTheFinals | verl/trainer/main_ppo_sync.py:868-879 | on keys with three fields these are the final rows |
| SessionScores.SelectionIsTheFinals | verl/trainer/main_ppo_sync.py:156-161 | the advantage computation selects the same set |
| SessionScores.SessionsShareOneScore | verl/trainer/main_ppo_sync.py:174-183 | every row of a session gets the session's score under its own mask, and final rows keep what GRPO gave them |
| SessionScores.SessionKeepsItsScoreIff | verl/trainer/main_ppo_sync.py:174-183 | all rows of a session get the GRPO score under their masks if and only if the final row's mask is set, the score is 0, or no row's mask is set |
| SessionScores.LostScore | verl/trainer/main_ppo_sync.py:174-180 | two outputs, the last without a response token: the first gets 0 |
| QkvLayout.MergeAcrossTp | scripts/legacy_model_merger.py:531-557 | the nested loops compute Merged, with every assert and failing split as an error |
| QkvLayout.AppendChunks | verl/model_merger/megatron_model_merger.py:339-349 | the inner loop splits and appends chunk by chunk, up to the first that does not fit |
| QkvLayout.ChunkOfConcat | verl/model_merger/megatron_model_merger.py:340 | chunk cuts a concatenation of equal blocks at its seams |
| QkvLayout.SplitsOfGroups | verl/model_merger/megatron_model_merger.py:340-351 | splitting query groups one by one collects all q, all k and all v in order |
| QkvLayout.ShardsMerge | scripts/legacy_model_merger.py:538-557 | the same over any number of row shards of whole groups |
| QkvLayout.ConvertThenMerge | scripts/converter_hf_to_mcore.py:155-160 | interleaving by the converter, row shards over any TP size that divides the kv heads, and merging give back q, k and v row for row |
| QkvLayout.MergesIff | scripts/legacy_model_merger.py:531-557 | merging any shards succeeds if and only if they can be cut and every chunk has the size of a group, and then every row is in q, k or v as often as in the shards |
| QkvLayout.CutIs | scripts/legacy_model_merger.py:533-537 | shards can be cut if and only if heads and rows divide and every rank has a group; the sizes are the largest that fit |
| QkvLayout.MergeGateUp | scripts/legacy_model_merger.py:518-528 | the loop over shards collects the first and second halves |
| QkvLayout.GateUpRoundTrip | scripts/legacy_model_merger.py:518-528 | shards that hold gate above up come apart into gate and up |
| PipelineShards.LeastDiff | verl/model_merger/megatron_model_merger.py:94-95 | the head of the stable sort is the first of the least differences |
| PipelineShards.GetDynamicPipelineShards | verl/model_merger/megatron_model_merger.py:67-98 | all errors; for three stages or more an answer exactly when ceil(L / p) * (p - 2) <= L - 2, and then ceil(L / p) layers on every inner stage and the rest halved, an odd layer going to the last stage |
| PipelineShards.FoundAre | verl/model_merger/megatron_model_merger.py:80-92 | the first strategy found is the one with middle stages of ceil(L / p) |
| PipelineShards.FirstIsLeast | verl/model_merger/megatron_model_merger.py:94-95 | sorting never changes which strategy is first |
| PipelineShards.ChosenIsBalanced | verl/model_merger/megatron_model_merger.py:94-98 | the answer sums to L, and every entry is positive and at most ceil(L / p) |
| PipelineShards.SomeStageIsLarge | verl/model_merger/megatron_model_merger.py:64-65 | no division is more even: some stage always has ceil(L / p) layers or more |
| PipelineShards.EvenDivision | verl/model_merger/megatron_model_merger.py:80-98 | when p divides L there is an answer and all stages are alike |
| PipelineShards.FiveLayersFourStages | verl/model_merger/megatron_model_merger.py:80-95 | 5 layers on 4 stages have a balanced division but no strategy |
| RankTiling.RangesTile | scripts/converter_hf_to_mcore.py:547-550 | the cumulative ranges give every layer one owner, are as long as the ranks' shares and follow each other from 0 |
| RankTiling.RenumberLayers | scripts/legacy_model_merger.py:615-656 | each stage's numbers are shifted by the rank's own first layer and by one more than the greatest number of every stage before |
| RankTiling.RenumberingTilesIff | scripts/legacy_model_merger.py:617-656 | the numbers written are those of the ranges if and only if no stage with layers follows one without |
| RankTiling.RenumberingIsInjective | verl/model_merger/megatron_model_merger.py:368-386 | layers of different stages never get the same number |
| RankTiling.RankWritesItsRange | verl/model_merger/megatron_model_merger.py:360-386 | a rank that merges its own stage from its own first layer on writes exactly the layers of its range |
| RankTiling.RanksWriteApart | verl/model_merger/megatron_model_merger.py:360-386 | two ranks never write the same layer |
| RankTiling.EmptyStageLeavesAGap | scripts/legacy_model_merger.py:656 | an empty first stage makes layer 0 come out as layer 1 |
| RankTiling.ArraySplitSizes | verl/model_merger/megatron_model_merger.py:433 | array_split pieces have the documented sizes |
| RankTiling.ArraySplitKeepsAll | verl/model_merger/megatron_model_merger.py:432-438 | and together are all keys in order |
| RankTiling.FilesTile | verl/model_merger/megatron_model_merger.py:446-447 | the file numbers of all ranks tile [0, saves_per_layer * layers) |
| RankTiling.AssignFiles | verl/model_merger/megatron_model_merger.py:441-452 | each key of a rank goes to the file of its own chunk, numbered from saves_per_layer times the rank's first layer |
| ParallelLoad.OneOwner | verl/utils/fsdp_utils.py:296-300 | every file has exactly one owner, for any number of files and ranks |
| ParallelLoad.FilesPerRankIsLeast | verl/utils/fsdp_utils.py:296-300 | the chunks are the smallest with which the ranks hold all files |
| ParallelLoad.LoadShards | verl/utils/fsdp_utils.py:262-315 | a rank ends with the tensors of its files and the owner's number for every other parameter |
| ParallelLoad.EveryParameterHasAHome | verl/utils/fsdp_utils.py:284-300 | every parameter of the index has one home among the ranks |
| ParallelLoad.CallsAgree | verl/utils/fsdp_utils.py:340-358 | at each parameter all ranks name the same source, which has the tensor, or all reuse it |
| ParallelLoad.AllRanksAgree | verl/utils/fsdp_utils.py:331-399 | on any number of ranks the initialisation succeeds and all ranks end with the files' contents |
| ParallelLoad.RanksAgreeIff | verl/utils/fsdp_utils.py:340-358 | for distinct names it succeeds if and only if the checkpoint has every tensor under the name at which it is met first; otherwise the assert on loaded names fails |
| ParallelLoad.SlotSyncsOnlyIf | verl/utils/fsdp_utils.py:348-358 | a slot succeeds only if all ranks make the same call, and a broadcast gives all of them what its source holds |
| ParallelLoad.FirstsMeaning | verl/utils/fsdp_utils.py:376-383 | a shared tensor is loaded under the name at which it is met first |
| ParallelLoad.WantedAt | verl/utils/fsdp_utils.py:376-386 | tied parameters end up with one tensor |
| PadUnpad.PutFirstAxis | verl/utils/npu_flash_attn_utils.py:57-66 | writing rows into a zeroed output is Scatter |
| PadUnpad.ScatterIsWritten | verl/utils/npu_flash_attn_utils.py:46-48 | each row of the output is zero or one of the rows written to it |
| PadUnpad.WrittenOnce | verl/utils/npu_flash_attn_utils.py:46-48 | with distinct indices every write order gives the same output, and each row is found at its index |
| PadUnpad.NonZeroMeaning | verl/utils/npu_flash_attn_utils.py:115 | the indices are strictly increasing and are exactly the selected positions |
| PadUnpad.Pad | verl/utils/npu_flash_attn_utils.py:81-95 | pad_input through the in-place write is PadInput |
| PadUnpad.PadAfterUnpad | verl/utils/npu_flash_attn_utils.py:81-129 | pad after unpad zeroes exactly the positions that no mask selects |
| PadUnpad.UnpadAfterPad | verl/utils/npu_flash_attn_utils.py:81-129 | unpad after pad changes nothing |
| PadUnpad.CuSeqlensDelimitIff | verl/utils/npu_flash_attn_utils.py:112-117 | cu_seqlens delimits each row's tokens if and only if no summed mask entry exceeds one |
| PadUnpad.UnpadDelimitsIff | verl/utils/npu_flash_attn_utils.py:97-129 | with masks of zeros and ones, if and only if no position is set in both |
| PadUnpad.OverlapCountsTwice | verl/utils/npu_flash_attn_utils.py:111-117 | one token set in both masks gives cu_seqlens [0, 2] for one packed token |
| PadUnpad.UnpadLengths | verl/utils/npu_flash_attn_utils.py:112-117 | max_seqlen is the longest of the delimited rows, and seqused counts attended tokens exactly for masks of zeros and ones |
| PadUnpad.SeqUsedIff | verl/utils/npu_flash_attn_utils.py:109-129 | seqused of a row is its delimited length if and only if its unused mask selects nothing |
| PadGradients.ScatterBackwardIff | verl/utils/npu_flash_attn_utils.py:36-49 | the overwriting backward pass is the adjoint of the gather if and only if the indices are distinct |
| PadGradients.PutBackwardIsAdjoint | verl/utils/npu_flash_attn_utils.py:68-74 | the gathering backward pass is the adjoint of writing rows to distinct places |
| GroupStats.IndexAdd | verl/utils/groupwise.py:205-207 | the in-place accumulation gives each group the sum of its values |
| GroupStats.FromSums | verl/utils/groupwise.py:209-221 | the elementwise formulas, with small groups overwritten by (0, 1) |
| GroupStats.GroupMeanStd | verl/utils/groupwise.py:163-223 | one pass over the rows gives every group's true mean, the root of its two-pass Bessel variance (clamped below) and its count; unequal lengths are refused |
| GroupStats.NumeratorIsTwoPass | verl/utils/groupwise.py:210 | the variance numerator is the sum of squared distances from the mean, and so never negative |
| GroupStats.OnePassIsTwoPass | verl/utils/groupwise.py:209-212 | one-pass variance is the two-pass Bessel variance |
| GroupStats.PairStats | verl/utils/groupwise.py:209-212 | two scores have their midpoint as mean and half their squared difference as variance |
| GroupStats.EqualScores | verl/utils/groupwise.py:209-213 | a group of equal scores has that score as mean and the root of eps as standard deviation |
| GroupStats.CountsAddUp | verl/utils/groupwise.py:205 | the counts of all groups sum to the number of rows |
| GroupStats.OrderDoesNotMatter | verl/utils/groupwise.py:205-223 | permuting the rows changes nothing |
| GroupStats.SmallGroups | verl/utils/groupwise.py:215-221 | empty and singleton groups get mean 0 and standard deviation 1 |
| BatchAlgebra.Concatenate | verl/protocol.py:917-961 | concatenation in loops is ConcatAll, failing on an empty list, on differing keys, on conflicting meta_info or on arrays that come out short |
| BatchAlgebra.MergeMeaning | verl/protocol.py:938-953 | meta_info merges if and only if no two give a key different values, and then to their union |
| BatchAlgebra.ConcatIff | verl/protocol.py:917-961 | concatenating succeeds if and only if none brings an array that the first lacks, or lacks its tensors or, next to tensors, one of its arrays, and meta_info agrees; then it has all rows in order |
| BatchAlgebra.JoinAllIff | verl/utils/py_functional.py:359-368 | without tensors a later element may lack an array, which then comes out short |
| BatchAlgebra.PadToDivisor | verl/protocol.py:74-99 | fewer than size_divisor rows are added, the length becomes divisible, row j is row j mod n in every tensor and array, and meta_info stays |
| BatchAlgebra.UnpadUndoesPad | verl/protocol.py:102-106 | unpadding gives the data back |
| BatchAlgebra.ChunkData | verl/protocol.py:864-903 | all chunks but the last have ceil(n / chunks) rows (with tensors) or differ by one (without), the same source rows in tensors and arrays, and chunk i is rows i * n / chunks on when the count divides; an uneven count is refused without automatic padding, and with it fails if and only if torch.chunk gives too few pieces |
| BatchAlgebra.EnoughPiecesIff | verl/protocol.py:875-890 | torch.chunk gives as many pieces as asked for if and only if all before the last leave a row for it |
| BatchAlgebra.EvenPieces | verl/protocol.py:875-878 | chunks that divide the rows never fail |
| BatchAlgebra.FiveRowsFourChunks | verl/protocol.py:875-890 | 5 rows in 4 chunks are 3 pieces |
| BatchAlgebra.SplitAtPieces | verl/protocol.py:881-890 | pieces of an array cut at given indices are the rows between consecutive indices |
| BatchAlgebra.ArraySplitPieces | verl/protocol.py:892 | without tensors, array_split gives every array the same rows |
| BatchAlgebra.ConcatUndoesChunk | verl/protocol.py:864-961 | chunk then concat is the identity, on tensors, arrays and meta_info |

## Left out

- Ray, ZeroMQ, NCCL, NIXL, RDMA, CUDA streams and sockets: messages are reliable FIFO queues, a remote read or a
  broadcast copies bytes one at a time, a stream that waits for another is an event. Failed transfers end the process
  in the original and do not occur here.
- The protocols are transition systems on values and not objects with coroutines; the loop that fills and swaps the
  buffers is also a method on arrays (`BucketPacking.PackBuckets`).
- NCCL and ZeroMQ publish and subscribe: no message is dropped and every subscriber is connected before the first.
- Views that a receiver yields are copied by its consumer before the next one is asked for, as merge_weight_chunks does
  for large weights; a consumer that keeps a view of send_buf is not modelled.
- The Mooncake and HCCL engines, `_gen_h2d_buckets`, `_copy_to_buffer` and offset assignment inside Kimi buckets.
- Phase order of CheckpointEngineManager.update_weights, elastic scaling and the process-group set-up of NCCL.
- Weights as typed tensors with strides: a weight is its shape, dtype and bytes.
- OffloadRuns.RunsSucceed: in the offloaded groups tensors that share a copy have equally many elements; what the failing view does
  otherwise is not followed further.
- OffloadHandler.AsyncDoubleBufferGroupOffloadHandler.BulkReloadGroup: recovered tensors get contents and shape but
  no modelled address or strides.
- OffloadRuns.AtMostTwoGroupsOnDevice: counts what the handler's maps keep, not what autograd or the allocator keep.
- The synchronous offload handler, FSDP parameter filtering and activation checkpointing.
- ReplaySystem.SampleIsComplete: one partition; a listing of the queue is an atomic snapshot; prompts that end in
  failure are only known to have ended, since stray sessions may still write.
- ReplaySystem.NoKeyIsSampledTwice: training samples only; validation batches share one step number.
- SessionScores.ValidationFinals: `int` reads decimal digits only, as it does in all models of the keys.
- SessionScores.SessionsShareOneScore: takes from compute_advantage only that GRPO gives a final row one score under
  its mask.
- QkvLayout.MergeAcrossTp: an empty list of shards and shards without rows are excluded.
- QkvLayout.MergeGateUp: a shard of fewer than two rows does not unpack into two chunks and is excluded.
- Biases, expert layouts, name mapping, vision towers and the other tensors of the converters and mergers.
- RankTiling.AssignFiles: which tensors are written, the index file and the 5-digit file names are left out.
- ParallelLoad.AllRanksAgree: parameters only; non-persistent buffers, dtype conversion and a checkpoint whose files
  disagree with its index are left out.
- ParallelLoad.LoadShards: the sorted list of file names is an input.
- GroupStats.GroupMeanStd: over the reals, with the square root as a parameter; `as_torch_index` is left out.
- PadUnpad.CuSeqlensDelimitIff: integer masks of unbounded size; boolean masks add by disjunction, and int32 wrap-around of
  the sums is left out.
- BatchAlgebra.ChunkData: TensorDict.chunk is torch.chunk; the "metrics" of meta_info are left out, as are union, repeat,
  reorder and in-place padding.
- WeightChunks.Merger.Accept: a last chunk that is shorter than the weight in progress, which leaves a tail that was never
  written, is a failure, where the source yields that tail as it happens to be.
- NixlAgent.NixlAgent.GetNotification: one call at a time; a poll lists an agent only with notifications.
- Trainer logging, checkpoint files, configuration, metrics, FLOPs formulas, tools, datasets and the viewer.
