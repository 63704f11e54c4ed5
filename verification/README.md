# Verified model of the drive service's transfer core

The service stores files on Telegram.  A Go transfer instance accepts upload chunks, queues them,
uploads them and reports them in batches to a NestJS core that keeps the rows; downloads are served
from Telegram or from temporary storage, decrypted at any offset.  This project models the parts of
it whose correctness depends on interleavings, arithmetic or recursion, and proves what they promise
for all inputs, all runs or all reachable states.

`dafny verify dfyconfig.toml` checks the whole project.

## How the project is laid out

- **Chunk drain protocol.** `Drain` is a transition system: any number of instances, each with queue,
  in-flight jobs, delayed jobs, reporter buffer, unfinished flushes and temporary files, sharing the
  Redis counters and the chunk rows.  Enqueue and increment are separate steps, as are the two reads
  of `FlushAndConfirm` and all statements of a flush.  `DrainProofs` holds the inductive invariant,
  `DrainTheorems` the promises, `DrainAcceptance` the exact verdict of `FlushAndConfirm`, `DrainLosses`
  when a chunk is lost, `DrainJobs` the account of single jobs; `DrainRuns` and `CounterRuns` are concrete runs that show where the promises
  end, and `TransferService` has the objects of one instance, method by method.
- **Completion.** `Completion` interleaves `reportChunkResults` and `completeChunkedUpload` calls
  statement by statement (read, count, guarded update, charge); `Convergence` proves when a file is
  complete; `CoreService` is the database object.  `ChunkRows` and `Sums` are shared by both halves.
- **Seekable decryption and ranges.** `CounterBlocks` (the 128-bit addition), `Ctr` (AES is an
  uninterpreted function from counter blocks to keystream blocks), `ChunkPlan` (which part of which
  chunk) and `Ranges`.
- **aws-chunked.** `AwsChunked` (push decoder), `AwsReader` (pull decoder), `AwsHeaders` (one header line
  in both), `AwsSizes` (sizes and uploads as a client writes them), `AwsAgreement` and `AwsLineFeeds`
  (both on one upload), `AwsCuts` (both on every prefix of an encoded upload).
- **Bot rate limiter.** `RateLimiter` (the script over runs with their full grant history),
  `RateLimiterTheorems` and `BotPool` (the round-robin pass and the wait oracle).
- **Folders.** `Forest` (rows and the recursive closure of the queries), `FolderMerge`, `MergeNames`,
  `MergeSafety`, `FolderMoves` and `MergeLoss` (merging), `FolderService` (`move` and the walks to the
  root), `Trash` (soft deletion and restoring), `FolderRuns` (runs of all of these), `SharedList` (the
  dual-cursor listing).
- **Names, canonical forms, quota.** `UniqueNames`, `Canonical`, `CanonicalQuery`, `Quota`.

Objects whose fields the source updates are classes; their methods are proved against functions on
values, and the lemmas are about those functions.

## What the proofs brought to light

Each of these is a property that does not hold as one might expect.  Where it fails, the lemma with the
failing run or input is named, and the lemma with the exact condition, for all inputs or all runs.  The
entries on retries and on failed files hold in every run.

- `FlushAndConfirm` can reject a complete upload while an `AddJob` of the same file is between its
  channel send and its increment: that job's decrement is taken from the counts of other chunks
  (`DrainRuns.FalseRejectionDuringAddJob`).  It does so if and only if the increments still owed
  outweigh what is counted besides (`DrainAcceptance.RejectedExactly`), so with none owed never
  (`DrainTheorems.NoFalseRejection`).
- It can accept an incomplete upload: a chunk counted by both reads stands in for a missing one
  (`DrainRuns.FalseAcceptance`).  It accepts if and only if the indices that neither read counts are no
  more than what is counted besides: indices counted by both reads, second jobs of a chunk, other jobs
  of the file, leaked and clipped counts, less the increments owed (`DrainAcceptance.AcceptedExactly`);
  when the key is gone at the first read, if and only if every row has landed
  (`DrainAcceptance.AcceptedWithoutCounter`).
- A counter key can stay behind for good: a successful non-chunked job never decrements
  (`CounterRuns.LeakedCountStays`), and a decrement that comes before its increment is lost at zero
  (`CounterRuns.ClippedCountStays`).  After the drain a key is gone if and only if neither has happened
  (`DrainTheorems.DrainedCounter`).
- An accepted chunk can be gone, with no row, no job and no reported failure: when the core fails to
  store a row, the report is answered all the same, and the flush ignores the number of accepted rows
  and deletes the only copy (`DrainLosses.UnstoredChunkIsLost`).  A run ends with a chunk gone if and only
  if some flush groups a batch with the last job of the chunk while its row has not landed and its
  file has not failed, and no later step hands the chunk over anew, stores its row or fails its file
  (`DrainLosses.GoneIffLastJobTaken`).  A report that did not store the row is not enough: another one can
  still bring it (`DrainLosses.UnstoredChunkComesBack`); if every answered report has stored its rows,
  nothing is gone (`DrainLosses.StoredMeansKept`).
- A failed attempt deletes the temporary file, so a retry can only succeed if the chunk's body was
  written again in between (`DrainTheorems.RetryNeedsRewrite`).
- A file with a reported failure stays failed whatever lands later (`Convergence.FailedNeverCompletes`).
- The pull decoder ends without an error on some uploads that broke off, all of which the push decoder
  refuses (`AwsCuts.PushVerdictOnCuts`).  Without line feeds in the headers, it does so if and only if the cut is between two chunks, right
  behind the data of a chunk or behind the CR that follows it, behind the zero header, or in a header of
  which so much is there that reads as zero; the payload is then what lies in front of the cut
  (`AwsCuts.PullVerdictOnCuts`, `AwsCuts.BrokenUploadPasses`).
- A line feed inside a header line ends the header for the pull decoder only.  It may then refuse what
  the push decoder accepts (`AwsLineFeeds.LineFeedRefused`, `AwsLineFeeds.LeadingLineFeedRefused`), or both
  accept and return different payloads (`AwsLineFeeds.PayloadsDiffer`).  On every upload the push decoder
  accepts, the pull decoder returns the same payload and ends cleanly if and only if (a) no data
  header holds a line feed and the digits of the zero header are not behind one, or (b) in the first
  data header that holds one, the digits are in front of it, and behind it come the chunk's data once
  more, a CRLF, and then what reads as the rest of the payload (`AwsLineFeeds.AcceptedAgreesIff`; what the
  pull decoder reads is `AwsLineFeeds.LineFeedDrain`).  For the last chunk, the rest is a line that reads
  as zero (`AwsLineFeeds.LastFrameAgreesIff`).
- The rate limiter's window is half-open: two grants exactly 60 s apart are possible with a limit of
  one (`RateLimiterTheorems.ClosedWindowOverfull`).  A closed window holds more than the limit if and only
  if the half-open one is full and a grant lies at its open end
  (`RateLimiterTheorems.ClosedWindowExactly`).  The wait oracle never names a wait that is too long, but the
  wait can be too short for a full bot (`RateLimiterTheorems.WaitTooShort`;
  `RateLimiterTheorems.GrantAfterWait` says exactly when).
- Moving a folder, with merge, onto an ancestor of the same name can lose live files
  (`MergeLoss.MergeIntoAncestorLosesFile`).  It loses none, wherever files are, if and only if following
  equal names down the source and down the target at once does not end at the source itself
  (`MergeLoss.LosesNothingIffNotEntangled`), which takes a target above the source.
- Two files can end under one name in a merged folder, because a file moved under its own name is not
  added to the names taken (`MergeNames.MovedNamesMayCollide`).  Names that differ before the merge differ
  after it if and only if no file that keeps its name is followed by one whose numbered name is that very
  name (`MergeNames.MergedNamesDifferIff`).  The repository has a partial unique index on active (user,
  folder, file name) that is applied by hand
  (backend/prisma/migrations/20260807_partial_unique_active_file_record/migration.sql); where it is, the
  database refuses the second of the two updates, so the state with two equal names is not reached and
  the merge fails instead, under the same condition (`MergeNames.IndexRefusesOvertaken`).
- Restoring undoes soft deletion exactly when no file in the tree and no child folder of it was
  already trashed at the very same timestamp (`Trash.RestoreUndoesSoftDelete`); otherwise it gives back
  more than was deleted (`Trash.RestoreGivesBackMore`).
- A request let through because the quota could not be fetched, or because enforcement is switched off,
  is still refunded, and the counter then falls short (`Quota.UnlockedRefundFallsShort`,
  `Quota.UncheckedRefundFallsShort`).  It covers what was charged if and only if no such
  transfer used less than its estimate (`Quota.CoversIffNobodyOverpaid`).
- A bandwidth refund that arrives after the daily hash has expired creates a hash without a limit, and
  every request is let through until the quota service is asked again; the answer then sets the limit
  but not the usage, which starts from the negative refund instead of the database
  (`Quota.RefundAfterExpiry`).  A hash lets everything through until then if and only if it holds no
  positive limit (`Quota.LetsThroughIffNoLimit`).

## Model

| member | source | states |
|---|---|---|
| DrainTheorems.NoFalseRejection | backend-transfer-go/internal/grpc/server.go:58-128 | In every run, if every chunk index was handed over, none was lost by a report and no chunk of the file failed, the received count falls short by at most the AddJob calls in progress; with none in progress the answer is allReceived |
| DrainTheorems.MissingRowsAreLive | backend-transfer-go/internal/grpc/server.go:76-111 | The rows still missing are covered by distinct jobs that are queued, in flight, delayed, buffered or being flushed |
| DrainTheorems.CounterConservation | backend-transfer-go/internal/queue/outstanding_counter.go:62-100 | In every reachable state the counter is the number of live jobs, minus increments still owed, plus leaked non-chunked successes, plus what clipping at zero added; it is never negative |
| DrainJobs.JobDecrementedOnce | backend-transfer-go/internal/queue/batch_reporter.go:128-140 | In every run, a job enqueued once is live, or has been decremented exactly once, or has succeeded as a non-chunked one; never two of these |
| DrainJobs.GroupedAmounts | backend-transfer-go/internal/queue/batch_reporter.go:134-140 | What a flush takes off a file is exactly the number of its batch's jobs of the file |
| DrainTheorems.DrainedCounter | backend-transfer-go/internal/queue/outstanding_counter.go:62-73 | When nothing of a file is live or owed, its key is gone if and only if nothing leaked and nothing was clipped |
| DrainTheorems.PromptCounterIsLiveCount | backend-transfer-go/internal/queue/worker_pool.go:72-87 | In runs where no decrement falls between an enqueue and its increment and all jobs are chunks, the counter plus owed increments is exactly the live count |
| DrainTheorems.ProcessedAtMostSixTimes | backend-transfer-go/internal/queue/worker_pool.go:89-138 | No job is processed more than six times, and one is given up for its attempts only after the sixth |
| DrainTheorems.TempFileOutlivesDrain | backend-transfer-go/internal/queue/batch_reporter.go:118-126 | The temp file of a chunk without a failed attempt exists until its row has landed, unless a report was answered without storing it |
| DrainTheorems.RetryNeedsRewrite | backend-transfer-go/internal/queue/upload_worker.go:64-80 | A job can succeed on a retry only if its temp file was written again after the failed attempt deleted it |
| DrainProofs.StepKeepsInv | backend-transfer-go/internal/queue/batch_reporter.go:75-143 | Every step of every instance and of the server keeps the invariant of the protocol |
| DrainProofs.StepKeepsBalance | backend-transfer-go/internal/queue/outstanding_counter.go:62-100 | Every step keeps the counter's conservation law and the account of enqueued jobs |
| DrainProofs.StepKeepsHeld | backend-transfer-go/internal/queue/worker_pool.go:72-138 | Every step keeps an accepted chunk live or landed, unless its file was reported failed or a report was answered without storing it |
| DrainProofs.ReachableInv | backend-transfer-go/internal/queue/worker_pool.go:72-182 | The invariant holds in every reachable state |
| DrainRuns.FalseRejectionDuringAddJob | backend-transfer-go/internal/queue/worker_pool.go:72-87 | A reachable state in which every chunk was handed over, one AddJob is in progress, and the answer is not allReceived |
| DrainRuns.FalseAcceptance | backend-transfer-go/internal/grpc/server.go:76-111 | A reachable run in which only one of two chunks was ever accepted and the answer is allReceived |
| DrainAcceptance.AnswerExactly | backend-transfer-go/internal/grpc/server.go:58-128 | Every number of the answer: completed is the size of the set of landed indices, allComplete holds exactly when all have landed, and received falls short of the total by exactly what is missing beyond what is counted besides |
| DrainAcceptance.AcceptedExactly | backend-transfer-go/internal/grpc/server.go:58-128 | For every reachable state and every later read of the rows: allReceived is answered if and only if the indices neither read counts are no more than what is counted besides |
| DrainAcceptance.RejectedExactly | backend-transfer-go/internal/grpc/server.go:58-128 | A complete hand-over is rejected if and only if the increments owed outweigh what is counted besides |
| DrainAcceptance.AcceptedMeansHandedOver | backend-transfer-go/internal/grpc/server.go:76-111 | When nothing is counted besides, allReceived means that every index is live or landed |
| DrainAcceptance.AcceptedWithoutCounter | backend-transfer-go/internal/queue/outstanding_counter.go:104-120 | With the key absent at the first read, allReceived is answered if and only if every index has landed at the second |
| CounterRuns.LeakedCountStays | backend-transfer-go/internal/queue/worker_pool.go:97-131 | A reachable state with nothing live or owed and a key of one, left by a successful non-chunked job |
| CounterRuns.ClippedCountStays | backend-transfer-go/internal/queue/outstanding_counter.go:62-73 | A reachable state with nothing live or owed and a key of one, left by a decrement that came before its increment |
| DrainLosses.GoneIffLastJobTaken | backend-transfer-go/internal/queue/batch_reporter.go:107-142 | A run of any length ends with an accepted chunk gone if and only if one of its steps takes the chunk's last job out unlanded and no later step rescues it; and passes through such a state if and only if there is such a step |
| DrainLosses.StepGone | backend-transfer-go/internal/queue/batch_reporter.go:134-140 | Exactly which steps make a chunk gone, and which bring a gone one back |
| DrainLosses.StoredMeansKept | backend/src/grpc/grpc-core.controller.ts:82-121 | If every answered report has stored its rows, no accepted chunk is gone |
| DrainLosses.UnstoredChunkComesBack | backend/src/grpc/grpc-core.controller.ts:82-121 | A reachable state in which a report did not store the row of a chunk that has landed all the same |
| DrainLosses.AcceptedIsKept | backend-transfer-go/internal/queue/worker_pool.go:72-138 | In every reachable state an accepted chunk is live or landed, unless its file was reported failed or it was lost |
| DrainLosses.UnstoredChunkIsLost | backend-transfer-go/internal/queue/batch_reporter.go:107-142 | A reachable state in which a chunk whose AddJob returned has no row, no temp file, no job and no reported failure |
| TransferService.OutstandingCounter.Decr | backend-transfer-go/internal/queue/outstanding_counter.go:62-100 | The script subtracts, deletes a key that is no longer positive, and so stops at zero |
| TransferService.OutstandingCounter.Read | backend-transfer-go/internal/queue/outstanding_counter.go:104-120 | A missing key reads as zero, and the value is clamped to the 32-bit range |
| TransferService.WorkerPool.AddJob | backend-transfer-go/internal/queue/worker_pool.go:72-87 | A job is accepted exactly below the soft limit, and then enqueued last and counted once |
| TransferService.WorkerPool.Retry | backend-transfer-go/internal/queue/worker_pool.go:102-122 | A failed job is retried with one more attempt, or reported and decremented exactly when the attempts or the delayed queue are used up |
| TransferService.WorkerPool.Collect | backend-transfer-go/internal/queue/worker_pool.go:160-162 | A retry is due one second later, doubled per attempt: 1, 2, 4, 8, 16 and 32 seconds |
| TransferService.WorkerPool.Tick | backend-transfer-go/internal/queue/worker_pool.go:164-181 | Due jobs go to the channel in order while it has room; the others stay, in order |
| TransferService.TickIsPromotions | backend-transfer-go/internal/queue/worker_pool.go:164-181 | One tick is a sequence of promotion steps of the protocol with the same outcome |
| TransferService.TickMeans | backend-transfer-go/internal/queue/worker_pool.go:164-181 | Every delayed item is promoted or left; what is not due is left, and what is due only for lack of room |
| TransferService.BatchReporter.Report | backend-transfer-go/internal/queue/batch_reporter.go:75-84 | Below the batch size the result is buffered and nothing else changes; at it the whole buffer is flushed |
| TransferService.BatchReporter.Flush | backend-transfer-go/internal/queue/batch_reporter.go:86-143 | A failed report changes nothing; an answered one, whatever number it answers, deletes exactly the batch's temp files and decrements each file by its number of results, stopping at zero |
| TransferService.BatchReporter.CountPerFile | backend-transfer-go/internal/queue/batch_reporter.go:134-137 | The grouping counts exactly the results of every file of the batch |
| TransferService.MetadataCountsRows | backend-transfer-go/internal/grpc/server.go:82-97 | Counting chunks with a Telegram id counts the landed rows |
| TransferService.FlushAndConfirm | backend-transfer-go/internal/grpc/server.go:82-127 | The loop confirms each chunk with a Telegram id as often as it is listed; completed is their number, allComplete compares it with the total, and received is that number plus the outstanding ones, at most the total |
| ChunkRows.UpsertsExtend | backend/src/grpc/grpc-core.controller.ts:61-114 | No upsert, of a result or of a buffered row, un-lands a row |
| ChunkRows.LandedBelowFull | backend/src/grpc/grpc-core.controller.ts:224-228 | The count of landed rows reaches the total if and only if every index below it has landed |
| Completion.StorageChargedExactlyOnce | backend/src/grpc/grpc-core.controller.ts:229-238 | Over every interleaving, failures and aborts included, a user's used space has grown by the size of each completed file once, less what winning calls have still to charge; a completed file can never be completed again |
| Completion.StepKeepsCharges | backend/src/file/upload-session.service.ts:746-774 | Every statement of every call keeps that account |
| Completion.StepKeepsSound | backend/src/file/upload-session.service.ts:746-774 | Only a flip completes a file, a flipped file is closed to further flips, and no row is lost |
| Convergence.CompleteExactlyWhenLanded | backend/src/grpc/grpc-core.controller.ts:84-130 | In runs without failure or abort, whenever no report owes a finalize, a file is complete if and only if all its indices have landed, whichever order the calls ran in |
| Convergence.CompleteIsStable | backend/src/file/upload-session.service.ts:761-769 | Neither parking nor any other call takes a complete file back |
| Convergence.FailedNeverCompletes | backend/src/grpc/grpc-core.controller.ts:749-764 | A file once marked failed or aborted is not completed by anything that lands later |
| CoreService.CoreDatabase.FinalizeChunkedFileIfLanded | backend/src/grpc/grpc-core.controller.ts:209-251 | An uploading or parked file all of whose rows have landed is completed and its owner charged its size; in every other case nothing changes |
| CoreService.CoreDatabase.ReportChunkResults | backend/src/grpc/grpc-core.controller.ts:61-140 | Exactly the rows whose upsert succeeds land and are counted, and every file touched by one is finalized, as the interleaved model does when nothing comes between |
| CoreService.AcceptedTells | backend/src/grpc/grpc-core.controller.ts:80-132 | If the number answered is that of the results, all their rows have landed; for different results none of which had landed before, if and only if |
| CoreService.CoreDatabase.ReportChunkBuffered | backend/src/grpc/grpc-core.controller.ts:146-203 | Missing rows are created unless the upsert fails, existing rows are not touched, nothing lands or un-lands |
| CoreService.CoreDatabase.CompleteChunkedUpload | backend/src/file/upload-session.service.ts:676-780 | A complete file or a negative verdict changes nothing; otherwise the file is completed and charged, or parked, by the rows that have landed |
| CoreService.FinishFront | backend/src/grpc/grpc-core.controller.ts:123-130 | Finalizing a list of files is finalizing them one after the other |
| CounterBlocks.AddBlocks | backend-transfer-go/internal/crypto/crypto.go:126-134 | The in-place carry loop adds the block count to the big-endian value, modulo 2^128 |
| CounterBlocks.CounterValue | backend-transfer-go/internal/crypto/crypto.go:126-134 | The counter block as a number is the sum less a multiple of 256^16 and lies below it |
| CounterBlocks.CounterAdds | backend-transfer-go/internal/crypto/crypto.go:126-134 | Advancing the counter by a and then by b is advancing it by a + b |
| Ctr.CryptSeek | backend-transfer-go/internal/crypto/crypto.go:116-145 | Block part into the counter and byte part into the position give the keystream at the offset |
| Ctr.CryptByBlocks | backend-transfer-go/internal/crypto/crypto.go:136-144 | Every byte is combined with the byte at its place in its block, which is the cipher of the counter block whose big-endian value is the IV's plus the blocks before it, modulo 2^128 |
| Ctr.SuffixDecrypts | backend-transfer-go/internal/crypto/crypto.go:116-156 | Decrypting any piece of a ciphertext from its offset gives that piece of the plaintext |
| Ctr.CtrStream.XorKeyStream | backend-transfer-go/internal/crypto/crypto.go:136-144 | The stateful stream en- or decrypts its input byte by byte with these blocks, from the position it has reached |
| Ctr.DecryptStreamWithOffset | backend-transfer-go/internal/crypto/crypto.go:116-145 | The stream returned stands at the block and byte of the offset |
| Ctr.DecryptFrom | backend-transfer-go/internal/crypto/crypto.go:116-145 | Reading a ciphertext suffix in any pieces through that stream yields the plaintext suffix |
| Ctr.PadAndDrop | backend/src/crypto/crypto.service.ts:21-75 | Padding the input by the offset in the block and dropping as much output is the same seek |
| Ctr.AesCtrOffsetStream.Transform | backend/src/crypto/crypto.service.ts:54-68 | Zero padding goes in before the first chunk only |
| Ctr.AesCtrOffsetStream.OnData | backend/src/crypto/crypto.service.ts:40-52 | However the output is fragmented, the dropped bytes are the padding |
| Ctr.AesCtrOffsetStream.PushedIsDecryption | backend/src/crypto/crypto.service.ts:15-75 | What was pushed is always a prefix of the decryption from the offset, byte by byte with the same blocks, and all of it in the end |
| Ranges.ResolveRange | backend-transfer-go/internal/telegram/downloader.go:230-286 | Which windows, Content-Length values and error answers the Range header gives |
| Ranges.StreamChunked | backend-transfer-go/internal/telegram/downloader.go:426-504 | For any chunk sizes and any mix of sealed and buffered chunks, exactly the bytes start to end of the plain file are written, in order |
| ChunkPlan.PlanIsCut | backend-transfer-go/internal/telegram/downloader.go:436-452 | The parts planned for the chunks together are exactly the window of the file's content |
| ChunkPlan.InvertedPlan | backend-transfer-go/internal/telegram/downloader.go:436-452 | A window whose start lies behind its end plans one part if one chunk holds both ends, and nothing otherwise |
| Ranges.FetchOne | backend-transfer-go/internal/telegram/downloader.go:466-499 | One part, from disk or decrypted at its offset, yields its plain bytes |
| ChunkPlan.CutConcat | backend-transfer-go/internal/telegram/downloader.go:436-456 | The window of a concatenation is the concatenation of the windows |
| Ranges.ServeChunked | backend-transfer-go/internal/telegram/downloader.go:208-357 | Each header in terms of the file: no range is everything, a start is the rest, a start and an end is that part, clamped, a suffix is the last bytes; an empty file and a range outside the file are answered exactly under their conditions |
| AwsChunked.FragmentationIndependent | backend/src/s3/aws-chunked-decode.stream.ts:11-107 | Any split of the input gives the same output, trailers and verdict as the input in one piece |
| AwsChunked.ProcessInParts | backend/src/s3/aws-chunked-decode.stream.ts:37-107 | Decoding a buffer is decoding a front part and then the rest |
| AwsChunked.DecodesEncoding | backend/src/s3/aws-chunked-decode.stream.ts:37-107 | Every framing of a payload, with any extensions and valid trailers, decodes to the payload and the trailers |
| AwsChunked.StreamDecodesEncoding | backend/src/s3/aws-chunked-decode.stream.ts:11-107 | The encoded payload comes out and is accepted however its bytes arrive |
| AwsSizes.HeaderReads | backend/src/s3/aws-chunked-decode.stream.ts:46-53 | A size written in hex digits by division, in any case, behind any zeros and with any extension, is read as that size by both decoders |
| AwsSizes.NoSizeIff | backend/src/s3/aws-chunked-decode.stream.ts:47-50 | A header has no size exactly when the text in front of its first semicolon, trimmed, is empty or holds something that is no hex digit |
| AwsSizes.TooLargeFails | backend-transfer-go/internal/handler/s3_aws_chunked_reader.go:105-108 | A size beyond 63 bits is an error for the pull decoder |
| AwsSizes.SignsRead | backend-transfer-go/internal/handler/s3_aws_chunked_reader.go:105-108 | The pull decoder takes a plus, and a minus only in front of zero; the push decoder takes neither |
| AwsSizes.WrittenUploadsDecode | backend/src/s3/aws-chunked-decode.stream.ts:11-107 | Whatever is written chunk by chunk with such headers comes out of the push decoder, in whatever pieces it arrives |
| AwsSizes.WrittenUploadsDrain | backend-transfer-go/internal/handler/s3_aws_chunked_reader.go:41-170 | And out of the pull decoder, if no extension holds a line feed |
| AwsSizes.TrailerMeans | backend/src/s3/aws-chunked-decode.stream.ts:84-107 | A trailer is stored under its name in lower case, without the blanks around name and value |
| AwsSizes.AcceptedTrailers | backend/src/s3/aws-chunked-decode.stream.ts:84-107 | The trailer section of every accepted upload is lines with a colon and a blank one |
| AwsChunked.AwsChunkedDecodeStream.Transform | backend/src/s3/aws-chunked-decode.stream.ts:11-23 | One piece advances the stream as the decoder on values does |
| AwsChunked.AwsChunkedDecodeStream.Flush | backend/src/s3/aws-chunked-decode.stream.ts:25-35 | The end is accepted if and only if the final blank line has been seen |
| AwsChunked.AwsChunkedDecodeStream.ProcessBuffer | backend/src/s3/aws-chunked-decode.stream.ts:37-107 | The loop does all rounds that are possible, and none changes the output when flushing |
| AwsReader.AwsChunkedReader.Read | backend-transfer-go/internal/handler/s3_aws_chunked_reader.go:41-81 | What a read returns is the front of what was left; an error ends the reader with it for good |
| AwsReader.AwsChunkedReader.NextHeader | backend-transfer-go/internal/handler/s3_aws_chunked_reader.go:85-121 | A header line opens a chunk, ends the stream behind its trailers, or fails |
| AwsReader.AwsChunkedReader.ConsumeTrailers | backend-transfer-go/internal/handler/s3_aws_chunked_reader.go:141-156 | Lines are skipped up to a blank one or the end of input |
| AwsReader.TrailersSkipped | backend-transfer-go/internal/handler/s3_aws_chunked_reader.go:141-156 | The section ends right behind its first blank line |
| AwsReader.TrailersToTheEnd | backend-transfer-go/internal/handler/s3_aws_chunked_reader.go:141-156 | Without a blank line it ends with the input |
| AwsReader.AwsChunkedReader.ReadAll | backend-transfer-go/internal/handler/s3_aws_chunked_reader.go:41-81 | Draining with any buffer sizes terminates and returns exactly what was left |
| AwsReader.DrainPart | backend-transfer-go/internal/handler/s3_aws_chunked_reader.go:60-80 | Taking part of a chunk and draining the rest is draining the chunk |
| AwsAgreement.PullDecodesEncoding | backend-transfer-go/internal/handler/s3_aws_chunked_reader.go:41-170 | Every framing of a payload drains to the payload and a clean end |
| AwsAgreement.AcceptedByBoth | backend-transfer-go/internal/handler/s3_aws_chunked_reader.go:41-170 | An upload the push decoder accepts, without a line feed in a data header or in front of the final zero, is read without error to the same payload by the pull decoder |
| AwsHeaders.SizesAgree | backend-transfer-go/internal/handler/s3_aws_chunked_reader.go:96-110 | A chunk size the push decoder reads is read the same by the pull decoder |
| AwsHeaders.DataHeaderIff | backend-transfer-go/internal/handler/s3_aws_chunked_reader.go:85-118 | The header of a data chunk is taken alike by both decoders if and only if it holds no line feed |
| AwsHeaders.ZeroHeaderIff | backend-transfer-go/internal/handler/s3_aws_chunked_reader.go:85-118 | The pull decoder takes the zero header for the end if and only if its digits are not behind a line feed |
| AwsLineFeeds.AcceptedAgreesIff | backend-transfer-go/internal/handler/s3_aws_chunked_reader.go:41-170 | Whatever upload the push decoder accepts is framed, and the pull decoder reads the same payload cleanly if and only if the framing meets the stated condition on its line feeds |
| AwsLineFeeds.FramedAgreesIff | backend-transfer-go/internal/handler/s3_aws_chunked_reader.go:41-170 | The same for every framed upload |
| AwsLineFeeds.LineFeedDrain | backend-transfer-go/internal/handler/s3_aws_chunked_reader.go:85-118 | With the first line feed in the header of frame k, the pull decoder returns the data in front of the frame and then fails or goes on behind the line feed |
| AwsLineFeeds.LineFeedEndsClean | backend-transfer-go/internal/handler/s3_aws_chunked_reader.go:60-131 | When the pull decoder ends cleanly behind a line feed, whatever it returns |
| AwsLineFeeds.LastFrameAgreesIff | backend-transfer-go/internal/handler/s3_aws_chunked_reader.go:60-131 | For the last data chunk the bytes behind the line feed decide: the data, a CRLF and a line that reads as zero |
| AwsLineFeeds.AcceptedIsFramed | backend/src/s3/aws-chunked-decode.stream.ts:37-107 | Every upload the push decoder accepts is the encoding of its output in some framing |
| AwsLineFeeds.LineFeedRefused | backend-transfer-go/internal/handler/s3_aws_chunked_reader.go:85-131 | An upload the push decoder accepts and the pull decoder refuses behind a line feed |
| AwsLineFeeds.PayloadsDiffer | backend-transfer-go/internal/handler/s3_aws_chunked_reader.go:60-131 | Uploads both decoders accept with different payloads |
| AwsLineFeeds.LeadingLineFeedRefused | backend-transfer-go/internal/handler/s3_aws_chunked_reader.go:85-118 | A line feed in front of the final zero, which the pull decoder refuses |
| AwsLineFeeds.AgreesAcrossChunks | backend-transfer-go/internal/handler/s3_aws_chunked_reader.go:60-131 | An upload on which both agree although the pull decoder reads the later chunks at the wrong places |
| AwsCuts.PullVerdictOnCuts | backend-transfer-go/internal/handler/s3_aws_chunked_reader.go:60-156 | On every prefix of an encoded upload the pull decoder returns the data in front of the cut, and ends cleanly if and only if the cut is at one of the listed places |
| AwsCuts.PushVerdictOnCuts | backend/src/s3/aws-chunked-decode.stream.ts:25-107 | On every prefix of an encoded upload the push decoder accepts if and only if it is the whole |
| AwsCuts.BrokenUploadPasses | backend-transfer-go/internal/handler/s3_aws_chunked_reader.go:60-156 | An upload that broke off is refused by the push decoder and passes the pull decoder exactly at those places |
| RateLimiterTheorems.SlidingWindow | backend-transfer-go/internal/telegram/rate_limiter.go:15-39 | Over every run, no window of 60 s of the full grant history holds more than the limit, and any two grants are a second apart |
| RateLimiterTheorems.ScriptRefinesHistory | backend-transfer-go/internal/telegram/rate_limiter.go:15-39 | The pruned, expiring set decides as a limiter that keeps its whole history |
| RateLimiter.StepKeepsInv | backend-transfer-go/internal/telegram/rate_limiter.go:15-39 | Every script and every look keeps the invariant, and grants are never forgotten |
| RateLimiter.ExpiryIsHarmless | backend-transfer-go/internal/telegram/rate_limiter.go:33-35 | The ten spare seconds of the key's expiry cover a command that reaches Redis late |
| RateLimiterTheorems.ClosedWindowOverfull | backend-transfer-go/internal/telegram/rate_limiter.go:22 | A reachable history with two grants exactly 60 s apart under a limit of one |
| RateLimiterTheorems.ClosedWindowExactly | backend-transfer-go/internal/telegram/rate_limiter.go:15-39 | A closed 60 s window holds at most one grant too many, and one too many if and only if the half-open one is full and a grant lies at its open end |
| RateLimiterTheorems.NoGrantBeforeWait | backend-transfer-go/internal/telegram/rate_limiter.go:170-200 | Whatever happens in between, a bot grants nothing before its wait is over |
| RateLimiterTheorems.NoWaitIffGrants | backend-transfer-go/internal/telegram/rate_limiter.go:170-200 | A bot has nothing to wait for if and only if its script would grant now |
| RateLimiterTheorems.GrantAfterWait | backend-transfer-go/internal/telegram/rate_limiter.go:170-200 | When the wait is over and nothing was granted meanwhile, the bot grants, except exactly if it was full with a grant less than a second before its oldest one leaves |
| RateLimiterTheorems.WaitTooShort | backend-transfer-go/internal/telegram/rate_limiter.go:170-200 | A reachable full bot that does not grant when its wait is over |
| BotPool.ScanTakesFirst | backend-transfer-go/internal/telegram/rate_limiter.go:84-117 | A pass takes one slot, from the first bot in order that has one, and only prunes the bots it asked before |
| BotPool.RotatedInOrder | backend-transfer-go/internal/telegram/rate_limiter.go:84-96 | The n-th bot asked is the one n places behind the start, wrapping around |
| BotPool.ZeroWaitIffSomeGrants | backend-transfer-go/internal/telegram/rate_limiter.go:138-211 | The oracle answers zero if and only if some bot would grant now |
| BotPool.NobodyGrantsBefore | backend-transfer-go/internal/telegram/rate_limiter.go:138-211 | No bot grants at any instant before now plus the answer, whatever is granted or asked in between |
| BotPool.BotRateLimiter.RunScript | backend-transfer-go/internal/telegram/rate_limiter.go:15-39 | One run of the script changes the bot's key as the function on values does |
| BotPool.BotRateLimiter.TryBots | backend-transfer-go/internal/telegram/rate_limiter.go:78-117 | The bots are asked in round-robin order from the old 32-bit index on; the first whose script grants is returned with one more grant, those before it are only pruned, all others keep their keys, and zero means that none grants |
| BotPool.BotRateLimiter.GetWaitTimeMs | backend-transfer-go/internal/telegram/rate_limiter.go:138-211 | The answer is the least wait of all bots, from zero to 60 seconds, and zero only for a bot without a wait; every bot is pruned and nothing else changes |
| Forest.ReachLeast | backend/src/folder/folder-deletion-queries.ts:14-20 | The recursive query computes the least set closed under its join |
| Forest.SiblingsApart | backend/prisma/schema.prisma:48-53 | The subtrees of two siblings have nothing in common |
| FolderMerge.MergeKeeps | backend/src/common/name-conflict.service.ts:104-182 | Any merge into a folder outside the source keeps the folders a forest and changes nothing outside the source's subtree |
| FolderMerge.ReparentForest | backend/src/folder/folder.service.ts:783-786 | Hanging a folder under one that is not below it keeps the parents acyclic |
| FolderMerge.DeleteForest | backend/prisma/schema.prisma:48-53 | A cascading delete keeps a forest and touches only the deleted subtree |
| FolderMerge.MergeFilesMoves | backend/src/common/name-conflict.service.ts:133-152 | The file loop moves exactly the files it was given, changes only their name and folder, and puts none onto a name the target had |
| MergeNames.MovedNamesMayCollide | backend/src/common/name-conflict.service.ts:139-150 | The smallest case in which two moved files end under one name |
| MergeNames.RenamedDifferIff | backend/src/common/name-conflict.service.ts:139-150 | The names a list of different names is moved to differ if and only if no kept name is overtaken by a later numbered one |
| MergeNames.MergedNamesDifferIff | backend/src/common/name-conflict.service.ts:133-152 | The same over the file loop, decided by the names before the merge |
| MergeNames.IndexRefusesOvertaken | backend/prisma/migrations/20260807_partial_unique_active_file_record/migration.sql:32-34 | With the unique index on active names, all updates of the loop go through if and only if no file is overtaken |
| MergeSafety.MergeSafe | backend/src/common/name-conflict.service.ts:104-182 | A merge whose equal names do not lead back into the source only takes things out of it, and every live file found from the source or the target is found from the target afterwards |
| FolderMoves.MovedOntoKeeps | backend/src/folder/folder.service.ts:763-780 | A move that merges keeps a forest, removes the source and touches nothing outside its subtree |
| FolderMoves.MovedOntoLosesNothing | backend/src/folder/folder.service.ts:763-780 | A merging move that is not entangled loses no live file of the source or the target |
| FolderMoves.EntangledOnlyAbove | backend/src/folder/folder.service.ts:763-780 | A move can only be entangled when the folder merged into is an ancestor of the moved one |
| MergeSafety.LeadsSame | backend/src/common/name-conflict.service.ts:154-176 | Harmless rounds of a merge do not change where equal names lead, so the verdict can be read off the folders before the move |
| MergeLoss.LosesNothingIffNotEntangled | backend/src/folder/folder.service.ts:763-780 | A merging move loses no live file, wherever files are, if and only if the names under the source do not lead back into it |
| MergeLoss.EntangledLoses | backend/src/folder/folder.service.ts:763-780 | An entangled move loses every live file directly in the folder the names lead to |
| MergeLoss.MergeSwallows | backend/src/common/name-conflict.service.ts:104-182 | A merge that leads back brings the files of that folder into the source, which is deleted afterwards |
| MergeLoss.MergeIntoAncestorLosesFile | backend/src/folder/folder.service.ts:763-780 | Three nested folders of one name: moving the middle one next to the outer one loses the file in the innermost |
| FolderService.FolderService.Move | backend/src/folder/folder.service.ts:701-792 | Every answer exactly under its condition on the folders; a refusal has no effect, a conflict names a folder of the same name at the destination, and otherwise the folder is merged or gets its new parent; in all cases the folders stay a forest |
| FolderService.FolderService.MergeFolderContents | backend/src/common/name-conflict.service.ts:104-182 | The recursive loops terminate and compute the merge on values |
| FolderService.FolderService.IsInside | backend/src/folder/folder.service.ts:719-733 | The walk to the root terminates and finds the folder if and only if the start is in its subtree |
| FolderService.FolderService.IsDescendantOf | backend/src/folder/folder.service.ts:1401-1414 | The walk terminates and answers whether the ancestor is reached through folders outside the trash |
| FolderService.FolderService.GetBreadcrumbs | backend/src/folder/folder.service.ts:797-815 | The trail is a parent chain of active folders that ends at the folder and cannot be extended upwards |
| FolderService.ConflictOutside | backend/src/folder/folder.service.ts:713-750 | A folder of the same name at the destination is never inside the folder that moves |
| FolderRuns.EveryRunKeepsForest | backend/src/folder/folder.service.ts:701-792 | In every state a run of creating, moving, merging, trashing, restoring and deleting reaches, no folder is below itself and every parent exists |
| Trash.RestoreUndoesSoftDelete | backend/src/folder/folder-deletion-queries.ts:5-35 | Restoring right after soft deletion gives back the drive exactly, earlier trashed subtrees included, if and only if nothing next to the tree already carried the timestamp |
| Trash.RestoreGivesBackMore | backend/src/folder/folder.service.ts:1266-1291 | A drive on which restoring also takes a folder out of the trash that had been deleted before |
| Trash.RestoreReachesOnlyTree | backend/src/folder/folder.service.ts:1266-1291 | With a fresh timestamp a restore visits exactly the folders the deletion trashed |
| Trash.NestedTrashComesBackInTurn | backend/src/folder/folder.service.ts:1262-1291 | A subtree trashed before the tree around it comes back only with its own restore |
| Trash.TrashService.SoftDelete | backend/src/folder/folder.service.ts:1184-1202 | The closure loop terminates and trashes exactly the active tree of the user and the user's files in it, with one timestamp; nothing else changes |
| Trash.TrashService.Restore | backend/src/folder/folder.service.ts:1208-1259 | The tree comes back, under a name no active sibling folder has; otherwise nothing changes |
| Trash.TrashService.RestoreRecursive | backend/src/folder/folder.service.ts:1266-1291 | The recursion terminates and restores exactly what is reached through equal timestamps |
| SharedList.FollowCursors | backend/src/folder/folder.service.ts:549-661 | Following the folder cursor and then the file cursor terminates and delivers every folder and file exactly once, in order |
| SharedList.FolderPage | backend/src/folder/folder.service.ts:555-661 | A page in the middle of the folders carries the file progress unchanged |
| SharedList.LastFolderPage | backend/src/folder/folder.service.ts:555-661 | The last folder page goes on with the files where the first page stopped |
| SharedList.FilePage | backend/src/folder/folder.service.ts:555-661 | A file cursor delivers the next files and no folders |
| UniqueNames.TakenFit | backend-transfer-go/internal/zip/zip_worker.go:230-243 | Pigeonhole: at most as many numbered candidates are taken as there are names |
| UniqueNames.CandidatesDiffer | backend-transfer-go/internal/zip/zip_worker.go:231-237 | Different numbers give different candidates |
| UniqueNames.Search | backend-transfer-go/internal/zip/zip_worker.go:230-243 | Counting up terminates within one more candidate than names, with the first free one |
| UniqueNames.GenerateUniqueName | backend/src/common/name-conflict.service.ts:75-95 | A free name is kept; otherwise the result is the stem, the least number in parentheses that gives a free name, and the extension |
| UniqueNames.NameParts | backend/src/common/name-conflict.service.ts:82-86 | A name falls into its stem and its extension, which begins at the last dot behind the first place |
| UniqueNames.UniqueNameKeepsExtension | backend/src/common/name-conflict.service.ts:82-92 | A name made unique keeps its extension, and its stem in front of the number |
| UniqueNames.PathRegister.Claim | backend-transfer-go/internal/zip/zip_worker.go:219-244 | A free path is kept; otherwise the path handed out has the least number that gives a free one, and it is recorded |
| UniqueNames.PathRegister.NameEntries | backend-transfer-go/internal/zip/zip_worker.go:156-168 | All paths of a run differ, and an entry keeps its own path if and only if no earlier entry was given it |
| Canonical.DecodeEncode | backend-transfer-go/internal/s3auth/encode.go:14-83 | Percent decoding inverts AWS encoding on every byte string |
| Canonical.EncodesByte | backend-transfer-go/internal/s3auth/encode.go:14-43 | Letters, digits and -_.~ stand for themselves; any other byte is a percent sign and two upper-case hex digits |
| Canonical.DecodesInTurn | backend-transfer-go/internal/s3auth/encode.go:59-83 | A percent sign and two hex digits of either case are read as one byte, any other byte as itself |
| Canonical.MalformedFails | backend-transfer-go/internal/s3auth/encode.go:59-83 | A percent sign that is not followed by two hex digits is an error |
| Canonical.PercentDecode | backend-transfer-go/internal/s3auth/encode.go:59-83 | The builder loop decodes, and fails on exactly the malformed inputs |
| Canonical.AwsUriEncode | backend-transfer-go/internal/s3auth/encode.go:14-28 | The builder loop encodes |
| Canonical.UriNormalForm | backend-transfer-go/internal/s3auth/canonical.go:105-115 | Two paths have the same canonical form if and only if they have the same decoded segments |
| Canonical.UriBySegments | backend-transfer-go/internal/s3auth/canonical.go:105-115 | The canonical path has the segments of the path, each decoded once and encoded again, or encoded as it is if it does not decode |
| Canonical.UriIdempotent | backend-transfer-go/internal/s3auth/canonical.go:105-115 | Canonicalising a path twice is canonicalising it once |
| Canonical.BuildCanonicalUri | backend-transfer-go/internal/s3auth/canonical.go:105-115 | The loop over the segments yields the canonical path |
| CanonicalQuery.QueryNormalForm | backend-transfer-go/internal/s3auth/canonical.go:124-174 | Two queries have the same canonical form if and only if they hold the same decoded pairs, each as often, apart from the excluded key |
| CanonicalQuery.QueryByParts | backend-transfer-go/internal/s3auth/canonical.go:124-174 | The canonical query has one part key=value for every pair of the query, encoded, in the order of encoded keys and then encoded values |
| CanonicalQuery.PartMeans | backend-transfer-go/internal/s3auth/canonical.go:133-150 | A part is cut at its first equals sign; without one it is a key with an empty value |
| CanonicalQuery.CanonicalKeepsMeaning | backend-transfer-go/internal/s3auth/canonical.go:124-174 | The canonical query reads back as the pairs of the query |
| CanonicalQuery.QueryIdempotent | backend-transfer-go/internal/s3auth/canonical.go:124-174 | Canonicalising a query twice is canonicalising it once |
| CanonicalQuery.SortSorts | backend-transfer-go/internal/s3auth/canonical.go:162-167 | Sorting keeps every pair as often and orders by encoded key, then encoded value |
| CanonicalQuery.LessEqIs | backend-transfer-go/internal/s3auth/canonical.go:162-167 | The order is byte by byte, and a prefix comes first |
| CanonicalQuery.BuildCanonicalQueryString | backend-transfer-go/internal/s3auth/canonical.go:124-174 | The loop over the parts yields the canonical query |
| Quota.CounterConserved | backend-transfer-go/internal/telegram/bandwidth.go:110-121 | In every run the counter is the seed plus locked estimates plus settled bytes up to their estimates, minus refunds to requests that never locked |
| Quota.CoversIffNobodyOverpaid | backend-transfer-go/internal/telegram/bandwidth.go:110-121 | In every run the counter is at most the seed plus what was charged, and equal if and only if nobody let through without a lock used less than estimated |
| Quota.UnlockedRefundFallsShort | backend-transfer-go/internal/telegram/quota_resolver.go:125-131 | The run read, fail open, settle ends below the seed |
| Quota.UncheckedRefundFallsShort | backend-transfer-go/internal/telegram/bandwidth.go:81-121 | So does the run of a request that was never checked |
| Quota.RefundAfterExpiry | backend-transfer-go/internal/telegram/bandwidth.go:114-121 | After a refund to a missing hash every request is let through until an answer arrives, and that answer keeps the usage instead of seeding it from the database |
| Quota.LetsThroughIffNoLimit | backend-transfer-go/internal/telegram/quota_resolver.go:143-172 | A hash lets every request through that no answer reaches if and only if it holds no positive limit |
| Quota.OvershootBounded | backend-transfer-go/internal/telegram/quota_resolver.go:117-178 | With at most k requests between read and increment and estimates of at most M, the counter never exceeds the limit by more than k - 1 times M |
| Quota.OvershootFromSeed | backend-transfer-go/internal/telegram/quota_resolver.go:117-178 | The same bound from a fresh seed, in plain numbers |
| Quota.OvershootHappens | backend-transfer-go/internal/telegram/quota_resolver.go:117-178 | For k = 2 the bound is met |
| Quota.QuotaResolver.CheckAndLock | backend-transfer-go/internal/telegram/quota_resolver.go:104-183 | Decision and hash of every call on the subject's hash, no other hash changes, and nothing is enforced without a subject |
| Quota.CheckMeans | backend-transfer-go/internal/telegram/quota_resolver.go:150-183 | A check in full: when the quota service is asked, where usage and limit come from, which tier refuses, and what is added to the counter |
| Quota.RefundMeans | backend-transfer-go/internal/telegram/bandwidth.go:114-121 | A refund in full, with and without a hash |
| Quota.QuotaResolver.ReconcileHash | backend-transfer-go/internal/telegram/quota_resolver.go:229-250 | Usage is seeded only into a missing hash or a new day |
| Quota.QuotaResolver.RefundAndReconcile | backend-transfer-go/internal/telegram/bandwidth.go:110-131 | The over-estimate goes back to the hash that was locked, even if that has expired, and the actual usage is reported; without a subject nothing happens |

## Left out

- Convergence.CompleteExactlyWhenLanded: excludes runs with `reportUploadFailed` and `abortUpload`, which overwrite any status; what such a run can no longer do is FailedNeverCompletes.
- AwsAgreement.AcceptedByBoth: uploads with a line feed in a data header, or in front of the final zero, are excluded; AwsLineFeeds.AcceptedAgreesIff has the exact condition for them.
- AwsCuts.PullVerdictOnCuts: for uploads whose header lines hold no line feed.
- UniqueNames.PathRegister.Claim: the directory, base name and extension of a path are parameters (`path.Dir`, `path.Base`, `path.Ext`), so the search is proved for every way of cutting a path.
- Ranges.ServeChunked: what the storage answers when it is asked for a part whose start lies behind its end is a parameter; that it is asked exactly when one chunk holds both ends is ChunkPlan.InvertedPlan.
- Failing or half-applied Redis and Postgres commands, key expiry of the outstanding counter, crashes and shutdown: every single command is atomic and succeeds, except the report RPC and the upserts behind it, whose failures are modelled.
- Lengths of retry delays in the drain protocol: a delayed job may be promoted at any time; the delays themselves are in TransferService.
- The upload handlers' token checks, body limits and per-file concurrency map: only their order of write, enqueue and row is in the protocol.  Row indices lie below the declared total, which the upload handlers check.
- The deletion of rows and temporary files by an abort: an abort is the status it stores.
- Single-message files (`streamSingle`) and buffered single files: the same fetch with one part.
- `processRangeRequest` in the NestJS read service: the same window computation as `streamChunked`.
- Non-ASCII white space and UTF-8 decoding in aws-chunked lines, and sizes beyond JavaScript's exact integers.
- An underlying reader that returns data together with its end, which can turn a truncation right behind chunk data into a different error of the pull decoder.
- RateLimiterTheorems.SlidingWindow: holds for clocks that do not go back in the order Redis runs the scripts, and for commands that reach Redis within the ten spare seconds of the key's expiry.
- BotPool.ScanTakesFirst: the bot ids are distinct; the sleeping loop around a pass is not modelled.
- SharedList.FollowCursors: the two result sets do not change between pages, a page holds at least one item, and the order of the rows is a function of their set: a query that lists ties differently from page to page is outside the model.
- Quota.OvershootBounded: the limit stays the same during the run.
- Concurrent folder operations, the name of a newly created folder, and sharing flags.
- Cursor encoding (base64 of JSON) and the sort order of the listing queries.
- Canonical headers and the signature itself; the byte order of the Go implementation is modelled, not the locale order of the NestJS one.
- In the interleaved quota runs: seeding of one daily hash by two first requests at once, the roll-over of the day, and the hash's expiry; the latter two are in the calls of the resolver object.
- HTTP, gRPC and database plumbing, Telegram calls, link caching, MD5, HMAC and the inside of AES.
- Archive part splitting and streaming of zip entries.
