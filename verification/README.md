# Verified model of kernel-av

kernel-av is an antivirus in two halves: a kernel module (`av/`) that hashes what is executed,
watches writes, renames and unlinks, and asks for verdicts; and a daemon with a control tool
(`userspace/avd`, `userspace/avctl`) that scans files, quarantines them and saves the module's
state. This project models the algorithms and protocols of both halves and proves what they are for.

- **TLSH digests** (`Ranks`, `Quartile`, `Pearson`, `TlshStream`, `TlshWrap`, `TlshTables`,
  `TlshLength`, `TlshFinal`, `TlshCodec`, `TlshDistance`, `TlshVector`, `TlshShim`): the
  sliding-window histogram, the triple quickselect with its pivot shortcuts, the length buckets, the
  packed codes, the hex form, the distance and its known answers.
- **SHA-256** (`Sha256`, `Octets`, `Sha256Bytes`, `Sha256Vector`): the buffered implementation
  against sections 5.1.1, 5.2.1 and 6.2.2 of FIPS 180-4, for any word operations and constants;
  `Sha256Words.Fips` is the record of the code's own, fixed by what its byte fields mean as numbers
  and by the published digest of "abc".
- **Behaviour detector** (`SlidingWindow`, `Buckets`, `BehaviorTable`, `BehaviorRuns`,
  `BehaviorTrust`, `Admission`): the ring against an unbounded log, the capped per-process table and
  its runs, the decision to kill told from the operations alone, and the shared cap on queued work.
- **Verdict channel** (`VerdictChannel`, `VerdictOutcomes`, `VerdictHonesty`): waiters, verdict
  handlers, timeouts, registration and release as atomic steps in any interleaving, with any daemon;
  who is registered, how requests end and what messages are answered, told from the steps alone.
- **Scan queue** (`ScanQueue`, `TaskQueue`, `VerdictHistory`): producers, workers, two condition
  variables and a shutdown; the linked list inside the critical sections; and the ring of past
  verdicts.
- **Quarantine** (`FileSystem`, `MetaText`, `Quarantine`): every step may fail; the sidecar text;
  the way back.
- **Paths** (`PathSpec`, `PathBuffer`): the in-place normalizer and the self-delete check.
- **Signatures** (`SigTable`): the bucketed, case-folded table as a map, and the skipped digests.
- **Save and load** (`Text`, `Scan`, `ProcWrite`, `ProcDelete`, `SaveLoad`, `SaveLoadReplay`,
  `SaveLoadDump`, `SaveLoadRoundTrip`, `SaveLoadNewlines`): the listings, the dump, the line reader,
  the kernel's field parsers and write handlers.
- `Options` and `Seqs` hold what several modules share.

Code that updates fields or buffers in place is a class or a method over arrays, proved against a
specification function; concurrent code is a state machine whose steps are single critical
sections, completions or frees; the theorems about whole runs are lemmas over all sequences of
steps. `dafny verify dfyconfig.toml` checks the project.

## Where the code and its documentation differ

The model follows the code. Each of these is a lemma.

- The TLSH buckets are 32-bit counters. They sum to 6(n - 4) exactly when no bucket is hit 2^32
  times (`TlshStream.BucketsConserve`), which holds below about 715 million bytes, but not for
  every stream under 2^32 bytes: the bytes 252, 86, 252, 86, ... hit one bucket twice per byte
  (`TlshWrap.CounterWrapsBelowLengthLimit`).
- A hash noted again keeps its old stamp, so the ring does not count "all distinct paths touched in
  the window": `SlidingWindow.RepeatIsNotRefreshed` is a history where it does not. The stamp of a
  hash follows from its own notes alone (`LastKept`): a note starts a new one when there is none or
  the last is more than a window old. Up to and including the first answer above the capacity, the
  ring counts the touched hashes whose stamp is still in the window
  (`SlidingWindow.AnswerFromHistory`), so it counts all of them if and only if each of them has such
  a stamp (`SlidingWindow.CountsAllTouched`).
- The slots reserved for execs (av/main.c:172-181) are not always free for them: an event that is
  refused counts until it has stepped back, so enough refused events at one moment shut an exec out
  while no reserved slot is held (`Admission.ReserveDenied`); `Admission.ExecAdmitted` says exactly when
  an exec is admitted. The hooks are kprobe handlers, which run without preemption, so at most one
  event per processor is stepping back at a time: a refusal needs at least as many processors as
  reserved slots, 512. On fewer the second clause of `ExecAdmitted` makes the comment true.
- The sidecar comment (userspace/avd/avd.c:1181-1188) says that a newline in a path can only truncate
  the path. It can set any other field: `MetaText.PathSetsOwner`. The record is read back exactly
  when the path has no newline (`MetaText.MetaRoundTrip`).
- Restoring drops set-user-ID, and set-group-ID of a group-executable file, because the owner is
  changed after the mode (`Quarantine.ThereAndBack`).
- A quarantine that is given up can leave files behind. `Quarantine.QuarantineFile` says how each
  fault ends (`OutcomeOf`) and what stands under the two quarantine names afterwards, exactly
  (`Leaves`): after a failed copy a part of it if and only if it was begun and its removal failed;
  after a failed lock the unlocked copy if and only if dropping it failed, and the sidecar if and
  only if it was written, or was begun and its removal failed. A failed lock never takes the written
  sidecar back. The formatted writes of the sidecar are not checked, so one that counts as
  written is whole if and only if no flush on the way lost a part (`Quarantine.WholeUnlessLost`).
- Paths with more than 128 components are left as they are, so two spellings of one such location
  differ (`PathBuffer.DeepSpellingsDiffer`); within the limit the check is exact.
- A dump loaded onto a fresh module does not always restore the state it was taken from. The module
  adds one signature of its own on being loaded (av/main.c:1778-1783), and a protected path may hold
  a newline or end in a carriage return (av/behavior.c:877-905), which a listing cannot carry. The
  state comes back if and only if that signature is in it under its own name, and every protected
  path is on one line and ends in no carriage return (`SaveLoadRoundTrip.LoadRestores`). A path with
  newlines comes back as the lines of it that are absolute paths
  (`SaveLoadNewlines.NewlineSplitsPath`, `SaveLoadRoundTrip.LoadOfDump`); it can do nothing but
  protect paths (`SaveLoadNewlines.PathsOnlyProtect`), because save gives every line of that listing
  its own prefix. A newline in the name of the dump file does run a command
  (`SaveLoadNewlines.HeaderRuns`).
- A load can fail on a dump that save wrote. It succeeds if and only if no saved hash is trusted yet,
  since `trust_proc_write` reports a duplicate as an invalid argument, the signature table has room
  for the union, every line of a protected path is an absolute path, and the header line fits the
  line buffer (`SaveLoadRoundTrip.LoadSucceeds`). Onto its own state it reports every trusted hash
  and every other line of a protected path (`SaveLoadRoundTrip.LoadRepeats`).
- Deleting a signature does not test the length of the digest: a longer one deletes another entry,
  that of its front, if both hash to the same bucket (`SigTable.OverlongDeletesAnother`), which for
  SHA-256 they always do (`SigTable.OverlongSha256Deletes`). A delete takes exactly the entry its
  argument names if and only if the digest is no longer than its algorithm's, or its front is not
  listed, or the two hash to different buckets (`SigTable.DeleteIsExact`). The write handler reads at
  most 64 characters of the digest, so from there only MD5 and SHA-1 digests can be too long.
- A failed send frees its entry without asking whether a verdict handler has dequeued it. An execution
  with any daemon is safe if and only if that never happens while a handler uses the entry
  (`VerdictChannel.MemorySafety`); once it has, a use of freed memory has happened or is the next
  step of that handler (`VerdictChannel.UseFollows`). With a daemon that answers only what it was
  sent it never happens (`VerdictHonesty.HonestIsSafe`); with one that answers a number not yet sent
  it can, from every reachable state (`VerdictHonesty.HonestyIsNeeded`).

## Model

| member | source | states |
|---|---|---|
| `Ranks.OrderStatisticRank` | userspace/avd/tlsh_core.c:290-303 | an element of a sorted permutation is pinned down by how many elements lie below it and how many do not lie above it |
| `Ranks.PivotIsOrderStatistic` | userspace/avd/tlsh_core.c:290-367 | an array position with nothing larger before it and nothing smaller after it holds the element of that index in the sorted array |
| `Quartile.Swap` | userspace/avd/tlsh_core.c:266-270 | exchanges two elements and changes no other |
| `Quartile.Collect` | userspace/avd/tlsh_core.c:279-284 | the partition loop gathers exactly the elements below the pivot value in front of the split and permutes only within the region |
| `Quartile.Partition` | userspace/avd/tlsh_core.c:260-288 | returns a split position inside the region whose element is at least everything before and at most everything after it; permutes only the region; both the two-element shortcut and the general case |
| `Quartile.Select` | userspace/avd/tlsh_core.c:325-335 | quickselect between two shortcuts ends with a pivot of the whole array at the wanted position, touching only the region it was given |
| `Quartile.ShortcutsKept` | userspace/avd/tlsh_core.c:305-320 | pivots recorded on the two stacks stay pivots while the search works between them |
| `Quartile.Narrow` | userspace/avd/tlsh_core.c:305-317 | one partition of the median search yields a pivot of the whole array, keeps both stacks valid and leaves both sides isolated |
| `Quartile.MedianPass` | userspace/avd/tlsh_core.c:302-320 | terminates within the 128-slot stacks, returns the element at sorted position 63 and leaves every recorded shortcut a pivot |
| `Quartile.LowerPass` | userspace/avd/tlsh_core.c:322-343 | finds the element at sorted position 31 between the shortcuts that enclose it, without touching the upper half |
| `Quartile.UpperPass` | userspace/avd/tlsh_core.c:345-366 | finds the element at sorted position 95, mirrored |
| `Quartile.CopyBuckets` | userspace/avd/tlsh_core.c:302-303 | the search works on a copy of the first 128 buckets |
| `Quartile.FindQuartileIn` | userspace/avd/tlsh_core.c:290-367 | all three passes together: three permutations of the input with pivots at 31, 63 and 95 |
| `Quartile.AllOrderStatistics` | userspace/avd/tlsh_core.c:290-367 | pivots of permutations of one array are its order statistics, hence ordered |
| `Quartile.FindQuartile` | userspace/avd/tlsh_core.c:290-367 | for every bucket array: exactly the elements at positions 31, 63 and 95 of the sorted array, q1 <= q2 <= q3, in bounds and terminating, input unchanged |
| `TlshStream.HitAll` | userspace/avd/tlsh_core.c:243-248 | the six increments count the six hashed triples, each counter modulo 2^32 |
| `TlshStream.WindowBehindCursor` | userspace/avd/tlsh_core.c:222-231 | the five-slot ring, read back from the cursor, is the last five bytes of the stream |
| `TlshStream.ReadBack` | userspace/avd/tlsh_core.c:227-231 | the window read from the ring is the last five bytes in order |
| `TlshStream.Mix` | userspace/avd/tlsh_core.c:226-249 | one position updates the checksum and the buckets as the whole-stream definition says |
| `TlshStream.Push` | userspace/avd/tlsh_core.c:222-250 | one byte keeps buckets, window, checksum and length equal to the whole-stream definition |
| `TlshStream.PushAll` | userspace/avd/tlsh_core.c:222-250 | the loop over one chunk extends the stream by that chunk |
| `TlshStream.Context.constructor` | userspace/avd/tlsh_core.c:173-176 | an initialised context has seen the empty stream |
| `TlshStream.Context.Update` | userspace/avd/tlsh_core.c:184-252 | the context after a call is that of the stream extended by the chunk; a failed first allocation is remembered and ends all counting |
| `TlshStream.ChunkingIrrelevant` | userspace/avd/tlsh_core.c:184-252 | two contexts fed the same bytes in any pieces have the same buckets, window, checksum and length |
| `TlshStream.TallyConserves` | userspace/avd/tlsh_core.c:243-248 | exact counters of any hit sequence sum to its length |
| `TlshStream.HitsConserve` | userspace/avd/tlsh_core.c:243-248 | 32-bit counters sum to the number of hits modulo 2^32, and to the number itself if and only if none wrapped |
| `TlshStream.BucketsConserve` | userspace/avd/tlsh_core.c:184-252 | the buckets sum to 6*max(0, n - 4) if and only if no bucket is hit 2^32 times, always when that total is below 2^32 |
| `TlshWrap.HotCount` | userspace/avd/tlsh_core.c:243-248 | two bytes in alternation hit one bucket 2(n - 4) times |
| `TlshWrap.CounterWrapsBelowLengthLimit` | userspace/avd/tlsh_core.c:243-248 | a stream of 2^31 + 4 bytes, below the length limit, whose buckets do not sum to 6(n - 4) |
| `TlshTables.Entry` | userspace/avd/tlsh_core.c:41-58 | the Pearson table entries, by index |
| `TlshSalts.SixHitsAreSalted` | userspace/avd/tlsh_core.c:233-248 | with the salts of the table the six hits of a window are the salted mappings of the newest byte with each pair of the four older ones, with the salts 2, 3, 5, 7, 11 and 13 |
| `TlshSalts.ChecksumIsSalted` | userspace/avd/tlsh_core.c:233-234 | one more byte is folded into the checksum together with the byte before it, with salt 0, from the fifth byte on |
| `TlshWrapWitness.PearsonIsSalted` | userspace/avd/tlsh_core.c:41-72 | the precomputed constants are the entries of the real table at those salts |
| `TlshWrapWitness.PearsonIsHot` | userspace/avd/tlsh_core.c:41-58 | the entries of the real Pearson table that decide the two windows of that stream |
| `TlshWrapWitness.PearsonPhases` | userspace/avd/tlsh_core.c:41-58 | with the real table both windows hit the hot bucket twice, as the wrapping stream needs |
| `TlshShim.HashFd` | userspace/avd/tlsh_shim.c:37-106 | for every schedule of short, interrupted and failed reads: -1 if and only if the seek fails or a failing read is reached before the limit and before the end of the file, otherwise the digest of the first min(file, limit) bytes, or -2 or -3 exactly when there is none or the buffer is too small; the output buffer is untouched on errors |
| `TlshShim.FeedFile` | userspace/avd/tlsh_shim.c:50-76 | the read loop has fed exactly the first min(file, limit) bytes, or met a failing read, whatever the reads returned |
| `TlshBreakpoints.TopVal` | userspace/avd/tlsh_core.c:82-104 | the 170 length breakpoints start at 1 and increase strictly |
| `TlshLength.LCapturing` | userspace/avd/tlsh_core.c:106-135 | the bisection terminates in bounds for every 32-bit length and returns the least bucket whose breakpoint is not below it, 169 beyond the table |
| `TlshLength.Capture` | userspace/avd/tlsh_core.c:106-135 | a reference search for the same bucket, from the definition |
| `TlshLength.BucketMonotone` | userspace/avd/tlsh_core.c:106-135 | a longer input never gets a smaller length bucket |
| `TlshFinal.UnpackPack` | userspace/avd/tlsh_core.c:412-424 | each 2-bit code comes back from the packed byte |
| `TlshFinal.PackValue` | userspace/avd/tlsh_core.c:412-424 | the packed byte is c0 + 4 c1 + 16 c2 + 64 c3, the first bucket lowest |
| `TlshFinal.QuartilesPositive` | userspace/avd/tlsh_core.c:391-410 | with more than half of the buckets nonzero the middle quartile, hence the upper one the ratios divide by, is positive: the q3 == 0 test is implied |
| `TlshFinal.CodeCountsQuartiles` | userspace/avd/tlsh_core.c:415-422 | a bucket's code is the number of quartiles strictly below it |
| `TlshFinal.BodyHoldsCodes` | userspace/avd/tlsh_core.c:412-424 | code n of the packed body is the code of bucket n |
| `TlshFinal.CodesCountAbove` | userspace/avd/tlsh_core.c:412-424 | the number of codes >= c is the number of buckets above the c-th threshold |
| `TlshFinal.CodesAreBalanced` | userspace/avd/tlsh_core.c:389-424 | when the thresholds are order statistics, at most 32, 64 and 96 buckets have codes >= 3, >= 2 and >= 1 |
| `TlshFinal.DigestMeaning` | userspace/avd/tlsh_core.c:369-437 | every digest produced comes from at least 50 bytes and 0 < q2, q1 <= q2 <= q3; it stores the two percentages of q3 modulo 16, the least length bucket that holds the length, the checksum, and for each bucket the number of sorted order statistics below its count |
| `TlshFinal.DigestExists` | userspace/avd/tlsh_core.c:379-410 | there is a digest if and only if the input has at least 50 bytes and more than 64 of the 128 buckets were hit, counted as a set of positions |
| `TlshFinal.DigestBalanced` | userspace/avd/tlsh_core.c:369-437 | the balance bound for every digest produced |
| `TlshFinal.CountNonZero` | userspace/avd/tlsh_core.c:402-406 | counts the nonzero buckets among the first 128 |
| `TlshFinal.PackBody` | userspace/avd/tlsh_core.c:412-424 | the packing loops write the body of the definition, first bucket in the lowest bits |
| `TlshFinal.Assemble` | userspace/avd/tlsh_core.c:369-437 | too few nonzero buckets and the normal case, in the order of the code: a digest exactly when more than 64 of the 128 buckets were hit |
| `TlshFinal.Final` | userspace/avd/tlsh_core.c:369-437 | finalising a context yields the digest of the whole stream and releases the buckets; there is one if and only if no allocation had failed, the stream has at least 50 bytes and more than 64 buckets were hit |
| `TlshCodec.SwapByteInvolution` | userspace/avd/tlsh_core.c:166-169 | swapping nibbles twice is the identity |
| `TlshCodec.HexLayout` | userspace/avd/tlsh_core.c:443-469 | where each part stands in the text: checksum and length byte low nibble first, first ratio before second, the body from its last byte to its first, high nibble first |
| `TlshCodec.DecodeEncode` | userspace/avd/tlsh_core.c:443-512 | digest to hex to digest is the identity if and only if both ratios fit in four bits |
| `TlshCodec.EncodeDecode` | userspace/avd/tlsh_core.c:443-512 | valid 70-character hex to digest to hex is the upper-cased text |
| `TlshCodec.ToHex` | userspace/avd/tlsh_core.c:443-469 | writes the text and the terminator, nothing after them |
| `TlshCodec.FromHex` | userspace/avd/tlsh_core.c:479-512 | accepts exactly the 70-character hex texts, and decodes them |
| `TlshDistance.ModDiffMetric` | userspace/avd/tlsh_core.c:137-149 | the circular difference is symmetric, zero only on equality, at most half the range |
| `TlshDistance.ModDiffIsShortest` | userspace/avd/tlsh_core.c:137-149 | it is the fewest steps around the circle, in either direction, from one to the other |
| `TlshDistance.ByteDiffMetric` | userspace/avd/tlsh_diff_table.h:19-37 | the per-byte distance is symmetric, at most 24, zero only on equal bytes |
| `TlshDistance.BodyDiffMetric` | userspace/avd/tlsh_core.c:156-164 | the body distance is symmetric, at most 24 per byte, zero only on equal bodies |
| `TlshDistance.HDistance` | userspace/avd/tlsh_core.c:156-164 | the loop computes the body distance |
| `TlshDistance.TotalDiffLaws` | userspace/avd/tlsh_core.c:516-555 | on digests with 4-bit ratios the score is symmetric, between 0 and 2473, and zero only on equal digests |
| `TlshDistance.FarthestDigests` | userspace/avd/tlsh_core.c:516-555 | two digests that reach the bound |
| `TlshDistance.TotalDiffOf` | userspace/avd/tlsh_core.c:527-555 | the branches for length and ratios add up to the score |
| `TlshDistance.DiffTexts` | userspace/avd/tlsh_shim.c:108-117 | the score of two texts exists exactly when both are digests, and is zero exactly when they agree up to case |
| `TlshVector.ScoreAB` | tests/test_tlsh_core.sh:120-150 | the score of the first two digests of the test is 102, as the original library has it, from their texts |
| `TlshVector.ScoreAC` | tests/test_tlsh_core.sh:120-152 | and that of the first and the third is 371 |
| `Sha256Spec.FewestZeroBits` | userspace/avd/sha256.c:122-124 | the padding adds the fewest zero bits that reach 448 modulo 512, as section 5.1.1 of FIPS 180-4 asks |
| `Sha256Spec.NextWordOrder` | userspace/avd/sha256.c:39-43 | the schedule word of the code is the sum of section 6.2.2 of FIPS 180-4, step 1 |
| `Sha256Words.FipsSums` | userspace/avd/sha256.c:54-70 | the additions of one round, in the code's order, are the standard's sums modulo 2^32 |
| `Sha256Words.RotrRotates` | userspace/avd/sha256.c:28-28 | the shift-and-or macro is a rotation |
| `Sha256Bytes.PackValue` | userspace/avd/sha256.c:35-37 | a word parsed from four bytes is the number they spell, most significant byte first |
| `Sha256Bytes.WordValue` | userspace/avd/sha256.c:140-145 | the four bytes of a word spell its value |
| `Sha256Bytes.DigestWordValue` | userspace/avd/sha256.c:140-145 | bytes 4i to 4i + 3 of the digest spell word i of the hash |
| `Sha256Bytes.LengthValue` | userspace/avd/sha256.c:129-130 | the eight bytes of the length field spell the number of bits, most significant byte first |
| `Sha256Bytes.PadShape` | userspace/avd/sha256.c:118-138 | a padded message is the message, 0x80, zeros, and eight bytes that spell 8 times its length; a multiple of 64 bytes and less than 73 bytes longer |
| `Sha256Vector.AbcDigest` | tests/test_sha256.sh:91-92 | the digest of "abc" is the published one, computed by proof through schedule, rounds and padding: it fixes every constant, rotation and byte order |
| `Sha256Stream.Expand` | userspace/avd/sha256.c:35-43 | fills the 64-word message schedule |
| `Sha256Stream.RunRounds` | userspace/avd/sha256.c:45-70 | the eight working variables after 64 rounds |
| `Sha256Stream.Transform` | userspace/avd/sha256.c:30-80 | the compression function, written back into the state |
| `Sha256Stream.FoldSnoc` | userspace/avd/sha256.c:107-110 | compressing one more block extends the fold |
| `Sha256Stream.Context.constructor` | userspace/avd/sha256.c:82-93 | an initialised context has absorbed nothing |
| `Sha256Stream.Context.Flush` | userspace/avd/sha256.c:107-110 | a full buffer is compressed and emptied, the bytes absorbed unchanged |
| `Sha256Stream.Context.Update` | userspace/avd/sha256.c:95-112 | after any call the context stands for the message extended by the new bytes, with its bit count modulo 2^64 |
| `Sha256Stream.StopsAtPadding` | userspace/avd/sha256.c:122-124 | the zero loop meets buflen 56 after exactly the padding's zero bytes and not before |
| `Sha256Stream.PadContext` | userspace/avd/sha256.c:118-124 | 0x80 and the zeros, through the same update entry point, end at buflen 56 |
| `Sha256Stream.Final` | userspace/avd/sha256.c:114-146 | the digest of everything absorbed: fold over the padded, parsed message, whose last eight bytes spell its bit count (`Sha256Bytes.PadShape`) |
| `Sha256Stream.HashChunks` | userspace/avd/sha256.c:82-146 | for every message below 2^64 bits and every split into updates, init/update*/final is SHA-256 of the concatenation, the function that `Sha256Bytes.PadShape` and `Sha256Vector.AbcDigest` fix by value |
| `SlidingWindow.RingRefinesLog` | av/behavior.c:339-366 | up to and including the first return above the capacity the ring answers as an unbounded log of accepted notes |
| `SlidingWindow.PositiveAnswer` | av/behavior.c:339-366 | a positive return is the number of distinct hashes its live slots stand for, all of them touched in the window |
| `SlidingWindow.LastKeptIsNewest` | av/behavior.c:348-363 | the stamp a hash has from its own notes alone, renewed only by a note more than a window after the last renewal, is that of its newest accepted entry |
| `SlidingWindow.AnswerFromHistory` | av/behavior.c:339-366 | up to and including the first return above the capacity: 0 when the noted hash has a stamp within the window, otherwise the number of touched hashes that have one, from the notes alone |
| `SlidingWindow.CountsAllTouched` | av/behavior.c:339-366 | a positive return is the number of all distinct hashes touched in the window if and only if each of them has a stamp within it |
| `SlidingWindow.RepeatIsNotRefreshed` | av/behavior.c:348-357 | a history in which a repeated hash is missed |
| `SlidingWindow.FirstNoteAccepted` | av/behavior.c:339-366 | a hash not noted in the preceding window is stored |
| `SlidingWindow.BurstIsReported` | av/behavior.c:339-366 | threshold + 1 distinct first notes within one window width make the last call return threshold + 1, wherever the span falls and whatever lies in between |
| `SlidingWindow.RingLogSpaced` | av/behavior.c:339-366 | within reach of the ring, equal hashes are stored more than a window apart |
| `SlidingWindow.Ring.constructor` | av/behavior.c:277-281 | an empty ring has no events |
| `SlidingWindow.Ring.Reset` | av/behavior.c:1326-1332 | emptying the cursors forgets all events |
| `SlidingWindow.Ring.Scan` | av/behavior.c:348-354 | the scan counts live slots and detects a live duplicate |
| `SlidingWindow.Ring.Store` | av/behavior.c:359-363 | one slot is overwritten and the cursor advances, wrapping |
| `SlidingWindow.Ring.NoteHash` | av/behavior.c:339-366 | the arrays and cursors answer exactly as the event history determines |
| `Buckets.InsertShape` | av/behavior.c:1081-1084 | a new entry at the head of its bucket keeps the table a map |
| `Buckets.RemoveShape` | av/behavior.c:1038-1041 | unlinking an entry removes exactly its key |
| `Buckets.Index.Find` | av/behavior.c:1058-1063 | a walk of one bucket finds the key exactly if the map has it |
| `Buckets.Index.Insert` | av/behavior.c:1081-1084 | inserting an absent key |
| `Buckets.Index.Remove` | av/behavior.c:1038-1041 | unlinking one position: one key less |
| `BehaviorTable.Table.constructor` | av/behavior.c:1471-1475 | an empty table with count 0 |
| `BehaviorTable.Table.FindOldest` | av/behavior.c:1025-1036 | the scan over all buckets finds an entry with the smallest last_touched |
| `BehaviorTable.Table.EvictOldest` | av/behavior.c:1009-1043 | removes one entry with the smallest last_touched and counts it off; false only on an empty table |
| `BehaviorTable.Table.GetOrCreate` | av/behavior.c:1049-1086 | hit, create, create after eviction, and failed allocation, each with the whole new table; at most one entry per pid, count equals entries and is at most 8192 |
| `BehaviorTable.Table.RecordExec` | av/behavior.c:1295-1335 | path and trust are set; start time and rings change only when the start time differs; the table after it is that of one exec operation |
| `BehaviorTable.Table.CheckOpen` | av/behavior.c:1337-1378 | only a tracked, untrusted process and a non-noise path is counted; the kill reason is sensitive paths first, then a count above the threshold, which `BehaviorTrust` derives from the operations alone; the table after it is that of one open operation |
| `BehaviorTable.Table.NoteOpen` | av/behavior.c:1354-1370 | exactly the entry of a counted open gains one note, and the burst is judged on the ring after it; which opens count, and when that is a reason to kill, `BehaviorTrust` derives from the operations alone |
| `BehaviorTable.Table.CheckRename` | av/behavior.c:1416-1459 | only a rename that appends an extension looks at the table; only a tracked, untrusted process and paths that are not exempt are counted, in the second ring; the kill reason is the one that `BehaviorTrust` derives from the operations alone |
| `BehaviorTable.Table.NoteRename` | av/behavior.c:1438-1459 | exactly the second ring of a counted rename's entry gains one note, and the burst is judged on it; `BehaviorTrust` says which renames count |
| `BehaviorTable.Table.SweepAt` | av/behavior.c:1257-1285 | one entry of the sweep is freed, reset or kept |
| `BehaviorTable.Table.SweepDead` | av/behavior.c:1244-1293 | exactly the pids with a live task stay, reused pids start clean, and the counter is corrected by the number removed |
| `BehaviorTable.TouchIsStep` | av/behavior.c:1049-1086 | without allocation failure a lookup is a least-recently-touched cache step on the stamps |
| `BehaviorTable.MostRecentlyTouched` | av/behavior.c:988-1086 | after any run with distinct stamps, a pid is in the table if and only if fewer than the capacity were last touched after it, with the stamp of its last touch |
| `BehaviorTable.RecentlyTouched` | av/behavior.c:988-1086 | after any run, equal stamps allowed: a tracked pid has its last stamp and fewer than the capacity last touched later; an evicted one has at least the capacity of others last touched no earlier |
| `BehaviorRuns.StepKeeps` | av/behavior.c:1244-1378 | any operation on the table, of any process, leaves the start time of a pid that stays the same process, and adds to each of its two rings exactly the open or rename that counts |
| `BehaviorRuns.RingsOnlyGrow` | av/behavior.c:1244-1459 | over any run of execs, opens, renames and sweeps in which a pid is neither evicted nor reused, each of its two rings is what it was followed by exactly the counted operations, in order |
| `BehaviorRuns.ReuseStartsClean` | av/behavior.c:1276-1332 | the first exec or sweep that shows another start time empties both rings |
| `BehaviorRuns.BurstAcrossRun` | av/behavior.c:1337-1459 | a burst of threshold + 1 distinct first notes in either ring is judged as one history across such a run: the last of them is above that ring's threshold |
| `BehaviorTrust.EntrySaysLastExec` | av/behavior.c:1295-1335 | while a process stays tracked and the same, its entry has the path and the trust of its last exec |
| `BehaviorTrust.NewEntrySays` | av/behavior.c:1065-1086 | a process that comes into the table has the path and trust of its exec, or neither if it came in otherwise |
| `BehaviorTrust.ReusedEntrySays` | av/behavior.c:1276-1332 | the first exec or sweep that shows a reused pid empties both rings and records the new start time; the exec sets path and trust, the sweep clears both |
| `BehaviorTrust.RingsAreHistory` | av/behavior.c:1337-1459 | each ring of a process holds exactly the opens, or renames, that it made on paths that are not noise while its last exec was not trusted, in order, after what it held before |
| `BehaviorTrust.AnswerFromOps` | av/behavior.c:1337-1459 | an open or a rename is a reason to kill if and only if its path is sensitive, or it is not noise, the last exec was not trusted and the ring counts more than 50, or 20, of those |
| `BehaviorTrust.TrustedIsSpared` | av/behavior.c:1356-1369 | a process whose last exec was trusted is never killed for volume, nor any for a path that is noise |
| `BehaviorTrust.BurstIsKilled` | av/behavior.c:1337-1459 | 51 distinct first opens of an untrusted process within one window, or 21 renames, end in a kill |
| `BehaviorTrust.KillIsEarned` | av/behavior.c:1337-1459 | a process killed for volume was not trusted and opened more than 50, or renamed more than 20, distinct paths in the window |
| `BehaviorRuns.DoesIsStep` | av/behavior.c:1049-1086 | an exec or open without allocation failure is a least-recently-touched cache step on the stamps of the table |
| `BehaviorRuns.TableRecalls` | av/behavior.c:988-1086 | after any run of execs and opens from the empty table: which pids it tracks, with the stamps of their last operations, for distinct and for equal stamps |
| `Admission.NeverOverCap` | av/main.c:207-241 | in every interleaving of increments, back-offs and releases: never more admitted than the cap, never more non-exec events than the smaller cap, and a counter that is exact once nobody is backing off |
| `Admission.ExecAdmitted` | av/main.c:212-229 | an exec is admitted if and only if what is held and what is backing off leave a slot; always when only non-exec events are in flight and fewer than the reserve are backing off |
| `Admission.OtherAdmitted` | av/main.c:212-240 | any other event is admitted exactly when what is held and what is backing off leave a slot outside the reserve |
| `Admission.ReserveDenied` | av/main.c:172-181 | a run in which an exec is refused although no reserved slot is held |
| `VerdictChannel.Reachable` | av/netlink_chan.c:124-344 | every state reached without freeing a failed request in use satisfies the invariant, with any daemon |
| `VerdictChannel.MemorySafety` | av/netlink_chan.c:255-344 | for every execution with any daemon: no freed entry is used, none is freed twice and no handler is left with one, if and only if no request whose send failed was freed while a handler used its entry; and then an entry is freed exactly once, when its request returns |
| `VerdictChannel.UnsafeStays` | av/netlink_chan.c:190-192 | a handler that holds a freed entry never lets go of it without using it |
| `VerdictChannel.UseFollows` | av/netlink_chan.c:190-192 | an execution that is not safe has used freed memory, or a handler's own next step does |
| `VerdictChannel.SecondWaitIsCovered` | av/netlink_chan.c:294-334 | the second, unconditional wait is entered only with the completion given or a handler committed to it |
| `VerdictChannel.SecondWaitEnds` | av/netlink_chan.c:294-334 | from there at most three steps, none of which can be blocked, end the wait |
| `VerdictChannel.RegisteredExactly` | av/netlink_chan.c:55-74 | in every execution socket p is the registered daemon if and only if at some step it registered and no later step is a registration or the close of p; the close of any other socket changes nothing |
| `VerdictChannel.BeginDecides` | av/netlink_chan.c:244-250 | a request that begins goes on exactly when there is such a socket, and ends with -ENOTCONN otherwise |
| `VerdictChannel.CheckDecides` | av/netlink_chan.c:137-155 | the check lets a message through exactly when it has both attributes and comes from that socket; otherwise -EINVAL for a missing attribute, then -EPERM |
| `VerdictChannel.VerdictIsGenuine` | av/netlink_chan.c:124-195 | a request that returns 0 carries the CLEAN or MALICIOUS value of the one message that named it, and at some step of the run that very message was checked while its sender was the socket that had registered last and was still open |
| `VerdictChannel.AuthorizedWasChecked` | av/netlink_chan.c:124-150 | in every execution, with any daemon, an authorized message was checked at some step at which its sender was the socket that had registered last and was still open |
| `VerdictHonesty.HonestIsSafe` | av/netlink_chan.c:325-344 | with a daemon that names only numbers it was sent, every execution is safe, and a failed send takes back an entry that is on the list and that no handler has taken |
| `VerdictHonesty.HonestyIsNeeded` | av/netlink_chan.c:160-192 | from every execution: a registered daemon that answers a number not yet sent, and a send that fails, lead to a freed entry which the handler's next step writes to |
| `VerdictChannel.TimeoutWasUnanswered` | av/netlink_chan.c:294-344 | a request that timed out was dequeued by no handler |
| `VerdictChannel.OneVerdictPerRequest` | av/netlink_chan.c:160-192 | no two messages take one request |
| `VerdictChannel.OutcomeForever` | av/netlink_chan.c:230-344 | an outcome never changes, however the run continues |
| `VerdictChannel.OnlyCheckAuthorizes` | av/netlink_chan.c:124-150 | after any execution, whatever the next step: only the check lets a message through, and only one from the socket that registered last and has not closed since |
| `VerdictOutcomes.AuthorizedExactly` | av/netlink_chan.c:137-155 | a message is authorized if and only if it has both attributes and was checked at some step at which its sender was the socket that had registered last and was still open |
| `VerdictOutcomes.NotConnectedExactly` | av/netlink_chan.c:244-250 | a request ends with -ENOTCONN if and only if at its beginning every socket that had registered had been replaced or closed |
| `VerdictOutcomes.OutcomeFromSteps` | av/netlink_chan.c:230-344 | how a request ends follows from its steps: no entry if and only if there was no memory, a failed send if and only if it failed, a timeout if and only if the wait ran out and no late completion came, a verdict only after a wake-up |
| `VerdictOutcomes.AnswerExactly` | av/netlink_chan.c:124-195 | what the handler answers, in every execution: invalid for a missing attribute, not permitted unless authorized, invalid for a value other than 0 and 1, and otherwise done, with a request taken or none |
| `ScanQueue.Reachable` | userspace/avd/avd.c:1892-1962 | every reachable state satisfies the invariant |
| `ScanQueue.BoundedFifo` | userspace/avd/avd.c:1892-1962 | the queue never exceeds its maximum and tasks leave it in the order they entered |
| `ScanQueue.NobodyIsForgotten` | userspace/avd/avd.c:1892-1962 | never is there work with every live worker asleep and unsignalled, nor room with every producer blocked and unsignalled |
| `ScanQueue.NobodyWaitsAfterShutdown` | userspace/avd/avd.c:1903-1946 | once the queue is shutting down no thread is left waiting without having been signalled, and none goes to sleep any more |
| `ScanQueue.ExactlyOnce` | userspace/avd/avd.c:1933-1962 | when all workers have exited, every accepted task has been handled exactly once |
| `ScanQueue.ShutdownDrains` | userspace/avd/avd.c:3327-3335 | after shutdown nothing more is accepted and every worker step brings the end nearer |
| `ScanQueue.SomeWorkerCanStep` | userspace/avd/avd.c:1933-1962 | a worker that has not exited always has a step |
| `TaskQueue.Queue.constructor` | userspace/avd/avd.c:300-312 | the empty list |
| `TaskQueue.Queue.ProducerPass` | userspace/avd/avd.c:1905-1927 | one pass of the producer's critical section over the linked list: append, wait or refuse |
| `TaskQueue.Queue.WorkerPass` | userspace/avd/avd.c:1939-1953 | one pass of the worker's critical section: the head and exactly the head is taken |
| `TaskQueue.ProducerPassIsSection` | userspace/avd/avd.c:1905-1927 | the producer's pass over the list is the producer's critical section of the queue protocol: same tasks, same outcome |
| `TaskQueue.WorkerPassIsSection` | userspace/avd/avd.c:1939-1953 | and the worker's pass the worker's section: the task handed over is the one recorded as taken |
| `TaskQueue.Queue.Shutdown` | userspace/avd/avd.c:3328-3332 | sets the flag and keeps the list |
| `VerdictHistory.History.constructor` | userspace/avd/avd.c:345-348 | an empty history numbers its first record 1 |
| `VerdictHistory.History.Append` | userspace/avd/avd.c:1088-1114 | one more record with the next number, its texts cut to their fields; the ring keeps the last 500 |
| `VerdictHistory.KeptFields` | userspace/avd/avd.c:1088-1114 | the path is cut to 4095 characters, the digest to 64, the rule name to 63, and nothing else changes |
| `VerdictHistory.History.Snapshot` | userspace/avd/avd.c:2204-2219 | the index arithmetic copies the last 500 records, newest first |
| `VerdictHistory.CountVisible` | userspace/avd/avd.c:2227-2231 | the first pass announces the number of rows the second will send |
| `VerdictHistory.SendVisible` | userspace/avd/avd.c:2236-2259 | the second pass sends those rows in order up to the first failed write, and the closing line only after all of them |
| `VerdictHistory.History.Recent` | userspace/avd/avd.c:2198-2261 | for every allocation and write failure, what is announced and sent, in terms of the whole log |
| `VerdictHistory.RowsAreNewest` | userspace/avd/avd.c:2198-2261 | the answer has at most n rows; they are the client's own records among the last 500, newest first, and one of those is missing only when n newer ones fill the answer |
| `MetaText.DigitsRoundTrip` | userspace/avd/avd.c:1225-1228 | octal and decimal numbers are read back as printed |
| `MetaText.SignedRoundTrip` | userspace/avd/avd.c:1226-1227 | an identifier printed as signed and read as unsigned comes back, on all 32 bits |
| `MetaText.TimeRoundTrip` | userspace/avd/avd.c:1228-1228 | a timestamp comes back over the whole signed 64-bit range |
| `MetaText.LinesOfUnlines` | userspace/avd/avd.c:1134-1138 | reading with the fixed line buffer gives back the lines written, when they fit |
| `MetaText.ReadMeta` | userspace/avd/avd.c:1123-1164 | the reading loop applies the lines in order; a later line overrides, an unknown one is ignored, an empty path is an error |
| `MetaText.HeadRestored` | userspace/avd/avd.c:1225-1230 | the six lines before the path set exactly the recorded fields |
| `MetaText.SampleRecord` | userspace/avd/avd.c:1226-1232 | one record spelled out character by character: octal mode, signed identifiers, the order of the lines |
| `MetaText.PathLines` | userspace/avd/avd.c:1181-1231 | a path of several lines is read as its first line plus one field per further line |
| `MetaText.MetaRoundTrip` | userspace/avd/avd.c:1123-1238 | the record read is the record written if and only if the path has no newline |
| `MetaText.PathSetsOwner` | userspace/avd/avd.c:1181-1188 | a path with a newline that changes the recorded owner |
| `FileSystem.KeepsMode` | userspace/avd/avd.c:2441-2461 | changing the owner keeps the mode exactly when it has no set-user-ID bit and no set-group-ID bit on a group-executable file |
| `FileSystem.BitsDropped` | userspace/avd/avd.c:2441-2455 | bit by bit what a change of owner takes from a mode |
| `Quarantine.NamesDiffer` | userspace/avd/avd.c:1512-1534 | the copy and the sidecar never take the name of the file itself |
| `Quarantine.CopyName` | userspace/avd/avd.c:1501-1535 | the copy of dir/name is called stamp_name.quarantined, in the quarantine directory |
| `Quarantine.CopyPieces` | userspace/avd/avd.c:1417-1424 | for every sequence of short reads, read errors and short writes: the whole content if and only if no read fails and no write falls short before the end; otherwise a front part of it |
| `Quarantine.CopyFd` | userspace/avd/avd.c:1404-1432 | the fallback succeeds exactly when every step does and the name is free; what a failure leaves is exact: a part of the copy if and only if it was begun and its removal failed |
| `Quarantine.WriteSidecar` | userspace/avd/avd.c:1190-1238 | exclusive creation; success exactly when every checked step succeeds, with what the writes handed over; otherwise a torn file if and only if it was created and its removal failed |
| `Quarantine.WholeUnlessLost` | userspace/avd/avd.c:1225-1237 | a sidecar that counts as written is the whole record if and only if no part was lost in an unchecked write |
| `Quarantine.FillSidecar` | userspace/avd/avd.c:1211-1238 | the open sidecar receives what the unchecked writes hand over of the record, or its front when the close fails |
| `Quarantine.MakeCopy` | userspace/avd/avd.c:1536-1551 | linking exactly when it is possible, else copying; success, kind and the leftovers of a failure are exact |
| `Quarantine.Secure` | userspace/avd/avd.c:1553-1586 | the sidecar, then the lock; saved and locked exactly as the faults say; after a failed lock the unlocked copy stands if and only if dropping it failed, and the sidecar if and only if it was written or could not be removed |
| `Quarantine.Lock` | userspace/avd/avd.c:1566-1586 | all permissions are taken off the copy, or the copy is dropped, which may fail |
| `Quarantine.RemoveOriginal` | userspace/avd/avd.c:1588-1645 | the name is removed exactly when the checks pass, it still names the open file and the removal succeeds |
| `Quarantine.FinishMove` | userspace/avd/avd.c:1553-1645 | from a finished copy: the outcome and what stands under both quarantine names, exactly, for every fault |
| `Quarantine.MoveTo` | userspace/avd/avd.c:1536-1646 | copy, sidecar, lock, removal: every intermediate state is safe; outcome, kind of copy, sidecar and what is left under the two quarantine names are exact for every fault |
| `Quarantine.QuarantineFile` | userspace/avd/avd.c:1488-1646 | whatever fails, in every state on the way the name is untouched or a mode-0 copy of the scanned content exists and no other name or file changes; the outcome is a function of the faults and the disk, refused if and only if the directory fails or the name is too long; what each outcome leaves under both quarantine names is exact; with no failure the file is quarantined; what stands then has mode 0 and the scanned content |
| `Quarantine.HandOver` | userspace/avd/avd.c:2441-2478 | mode, owner, name and sidecar, with what each failure leaves behind |
| `Quarantine.RestoreFile` | userspace/avd/avd.c:2367-2481 | succeeds exactly when the entry is restorable; every refusal changes nothing; an identifier is refused exactly when it is empty, has a slash, is a dot name or is too long; a failed rename leaves names alone |
| `Quarantine.WhereItGoes` | userspace/avd/avd.c:1123-1164 | a quarantined entry is restorable to its own path if and only if that path has no newline |
| `Quarantine.ThereAndBack` | userspace/avd/avd.c:2367-2481 | restore after quarantine: the same name, content, owner and mode less the set-id bits; no copy and no sidecar left |
| `Quarantine.HandedBackAs` | userspace/avd/avd.c:2441-2455 | the recorded mode, owner and group come back by value; the owner not if changing it failed, and then the set-id bits stay |
| `Quarantine.BackInPart` | userspace/avd/avd.c:2441-2478 | when the owner cannot be changed or the sidecar not removed: the name, content and whole mode come back, a copied file stays the daemon's, the sidecar stays |
| `Quarantine.QuarantineThenRestore` | userspace/avd/avd.c:1488-1646 | both operations in a row, for linked and copied files |
| `PathSpec.RenderRoundTrip` | av/main.c:342-348 | a rendered component stack is split and walked back to itself |
| `PathSpec.NormalizeLaws` | av/main.c:301-351 | normalizing keeps the location, which `LocationOfName` and `LocationOfDots` determine for every path; it keeps fitting, and twice is once |
| `PathSpec.LocationOfName` | av/main.c:313-334 | a further name leads one level down: the location of p/n is that of p and then n |
| `PathSpec.LocationOfDots` | av/main.c:313-334 | a further slash or dot leads nowhere, a further dot-dot one level up and never above the root; the empty path is the root |
| `PathSpec.FitsStep` | av/main.c:320-340 | a path is within the limit as long as no name comes on top of 128 others |
| `PathSpec.NormalizeStep` | av/main.c:342-348 | the canonical spelling is "/" for the root, otherwise that of the level above, a slash and the name |
| `PathSpec.NormalizeDecides` | av/main.c:301-351 | two spellings normalize alike if and only if they are the same string or both fit the 128-component limit and name one location |
| `PathSpec.RelativeWalk` | av/main.c:377-467 | a relative path under a directory is walked from that directory's location |
| `PathSpec.NormalizeShortens` | av/main.c:301-351 | the canonical spelling of an absolute path is never longer than the path |
| `PathBuffer.StrLCat` | av/main.c:342-348 | appending within the buffer, truncating at its end |
| `PathBuffer.StrSep` | av/main.c:311-312 | one strsep call yields the text up to the next slash |
| `PathBuffer.PushPiece` | av/main.c:313-334 | empty and "." are dropped, ".." pops, anything else is pushed unless the stack is full, as one step of the walk that `PathSpec.LocationOfName` and `PathSpec.LocationOfDots` fix |
| `PathBuffer.StackComponents` | av/main.c:311-340 | the loop yields the bounded walk of the components, or overflow |
| `PathBuffer.WriteStack` | av/main.c:342-348 | the buffer receives the rendered stack, never cut off |
| `PathBuffer.NormalizeInPlace` | av/main.c:301-351 | the buffer holds the normalized path, which `PathSpec.NormalizeStep` spells out level by level; without memory it is left alone |
| `PathBuffer.ResolveAbsolutePath` | av/main.c:377-467 | absolute, relative, empty and every failure path of the resolver |
| `PathBuffer.AbsoluteAnswerIsRight` | av/main.c:377-467 | whenever the answer is absolute it names the location the call denoted |
| `PathBuffer.OtherAnswerIsRaw` | av/main.c:377-467 | otherwise the answer is the path as given: exactly when it is relative and there is no memory, no directory or no room, or empty and the directory cannot be told |
| `PathBuffer.SelfDeleteSound` | av/behavior.c:1389-1404 | when the unlink check matches, the executed and the unlinked path denote the same component list |
| `PathBuffer.SelfDeleteDecides` | av/behavior.c:1389-1404 | when nothing fails and the limits are met, it matches exactly then; an empty path, as of an exec by descriptor, stands for its directory as the kernel spells it |
| `PathBuffer.DeepSpellingsDiffer` | av/main.c:320-340 | beyond the component limit two spellings of one location stay different |
| `SigTable.SamePrefixMeans` | av/sigtable.c:131-137 | the case-insensitive comparison against a full-length digest compares its folded front |
| `SigTable.CountsAdd` | av/sigtable.c:147-149 | adding keeps total and per-algorithm counts equal to the map's sizes |
| `SigTable.CountsDrop` | av/sigtable.c:170-174 | deleting keeps them equal |
| `SigTable.CheckHex` | av/sigtable.c:108-112 | accepts exactly the full-length hex digests |
| `SigTable.Table.constructor` | av/sigtable.c:332-335 | an empty table with zero counts |
| `SigTable.Table.Walk` | av/sigtable.c:131-138 | a bucket walk finds an entry exactly when the folded front of the digest is in the map and hashes there |
| `SigTable.Table.Add` | av/sigtable.c:98-153 | invalid, out of memory, duplicate, full and done, in that order, and the map updated at the folded digest |
| `SigTable.AddAnswers` | av/sigtable.c:98-153 | every answer by value: 32, 40 or 64 hex digits, at most 8192 entries; only a success changes the table, by one entry |
| `SigTable.Table.Del` | av/sigtable.c:155-180 | removes the entry of the folded front exactly if its bucket is walked |
| `SigTable.OverlongDeletesAnother` | av/sigtable.c:155-180 | for every digest longer than its algorithm's whose front is listed in the bucket that is walked, the delete removes the entry of the front, which the argument does not name |
| `SigTable.OverlongSha256Deletes` | av/sigtable.c:155-180 | for SHA-256 every overlong digest with a listed front does, because the folding buffer cuts it to the front |
| `SigTable.DeleteIsExact` | av/sigtable.c:155-180 | a delete removes exactly the entry of the whole folded digest, and reports whether there was one, if and only if the digest is not too long, or its front is not listed, or the buckets differ |
| `SigTable.Table.Match` | av/sigtable.c:182-204 | the first algorithm with a hit |
| `SigTable.ExactHex` | av/sigtable.c:58-70 | for a digest of exact length, lookup in any case is membership of the folded key |
| `SigTable.DelUndoesAdd` | av/sigtable.c:98-180 | one delete, in any case, takes back one add |
| `SigTable.AddUndoesDel` | av/sigtable.c:98-180 | adding what was listed takes back one delete |
| `SigTable.FirstHitDecides` | av/sigtable.c:182-204 | MD5 before SHA-1 before SHA-256 |
| `SigTable.SkipsAreInvisible` | av/main.c:587-606 | skipping the digests of algorithms with count zero never changes the match |
| `Scan.FieldsOfSpaced` | av/sigtable.c:267-267 | sscanf gives back words and rest that were printed with single blanks, when they fit their widths |
| `Scan.FieldsShape` | av/sigtable.c:267-267 | whatever the text, converted words have no blanks and bounded length, and the rest is non-empty, on one line and starts with no blank |
| `ProcWrite.SigProcWrite` | av/sigtable.c:239-310 | the signature write handler on the real table, with each error |
| `ProcWrite.SigWriteKeeps` | av/sigtable.c:239-310 | no write can store a name that would not survive a reload |
| `ProcWrite.TrustWriteKeeps` | av/behavior.c:506-559 | nor a trusted hash or its name |
| `ProcDelete.SigDelete` | av/sigtable.c:288-303 | a delete command takes out the entry of its algorithm and digest and no other, or says that there is none |
| `ProcDelete.TrustDelete` | av/behavior.c:506-559 | a delete command ends the trust in its hash and in nothing else |
| `ProcDelete.ProtectDelete` | av/behavior.c:795-933 | a delete command takes the protection of its path away and no other's |
| `ProcDelete.ProtectDeleteUndoesAdd` | av/behavior.c:795-933 | one delete takes back one add |
| `ProcDelete.PolicyByName` | av/main.c:767-802 | the two policies by name, whatever the one before |
| `SaveLoad.SaveListing` | userspace/avctl/avctl.c:619-690 | the loop over one listing writes one command per well-formed line |
| `SaveLoad.SaveUnlines` | userspace/avctl/avctl.c:619-673 | line by line, a listing becomes its commands |
| `SaveLoad.Skip` | userspace/avctl/avctl.c:892-899 | the rest of an overlong line is drained |
| `SaveLoad.ReadLine` | userspace/avctl/avctl.c:876-906 | one turn of the reader consumes text: a line, or an overlong one |
| `SaveLoad.Load` | userspace/avctl/avctl.c:865-957 | the reading loop applies every line and succeeds exactly when no error was counted |
| `SaveLoad.OtherLines` | userspace/avctl/avctl.c:903-935 | an empty line or a comment counts as nothing, a line with none of the four prefixes is an error, and neither changes the state |
| `SaveLoad.LoadUnlines` | userspace/avctl/avctl.c:865-957 | lines that fit are applied one by one |
| `SaveLoad.LoadOverlong` | userspace/avctl/avctl.c:891-901 | a line that overruns the buffer is one error and the next line is read from its start |
| `SaveLoadReplay.SigPayload` | av/sigtable.c:239-310 | a saved signature command adds that signature, or reports it present, or the table full |
| `SaveLoadReplay.SigsReplay` | userspace/avctl/avctl.c:908-957 | all signature commands: each new one is added while there is room, the present ones skipped, the others errors |
| `SaveLoadReplay.TrustPayload` | av/behavior.c:506-559 | a saved trust command adds the hash, or is refused as invalid when it is present |
| `SaveLoadReplay.TrustReplay` | userspace/avctl/avctl.c:914-957 | all trust commands: the union with existing entries kept, the present ones counted as errors |
| `SaveLoadReplay.ProtectPayload` | av/behavior.c:795-933 | a saved line is added as a path without leading blanks and a trailing carriage return, or refused |
| `SaveLoadReplay.ProtectWriteKeeps` | av/behavior.c:795-933 | no write protects anything but a non-empty absolute path below PATH_MAX; a newline in it is let in |
| `SaveLoadReplay.PathsReplay` | userspace/avctl/avctl.c:921-957 | all protect commands: the absolute ones among them are added, the present ones skipped, the others errors |
| `SaveLoadReplay.PolicyPayload` | av/main.c:767-802 | the saved policy word sets that policy |
| `SaveLoadDump.DumpBody` | userspace/avctl/avctl.c:619-690 | the dump of any listing is its commands, line by line |
| `SaveLoadDump.SavedPaths` | userspace/avctl/avctl.c:655-673 | the listing of protected paths becomes one command per non-empty line, also of paths with newlines |
| `SaveLoadDump.ClashesCounts` | userspace/avctl/avctl.c:936-945 | entries skipped or refused one by one are exactly those the two states share |
| `SaveLoadRoundTrip.LoadOfDump` | userspace/avctl/avctl.c:529-957 | a dump of any state, replayed onto any state, gives the union, with existing entries kept, as far as the signature table has room, the lines of the protected paths that are absolute, and the saved policy; exact counts of loaded, skipped and failed lines |
| `SaveLoadRoundTrip.FilledFacts` | av/sigtable.c:98-153 | adding a listing one by one fills the table up to its limit, keeps what was there, and refuses exactly as many as the union has beyond the limit |
| `SaveLoadRoundTrip.LoadOfSave` | userspace/avctl/avctl.c:529-957 | when every protected path reloads as it is and the table has room, the result is the plain union; the paths skipped are those in common |
| `SaveLoadRoundTrip.LoadSucceeds` | userspace/avctl/avctl.c:936-957 | load succeeds if and only if no saved hash is trusted yet, the table has room for the union, every line of a protected path is an absolute path, and the header fits |
| `SaveLoadRoundTrip.LoadRestores` | userspace/avctl/avctl.c:529-957 | onto a module just loaded the dump restores the very state it was taken from if and only if the seeded signature is in it under its own name and every protected path is on one line without a trailing carriage return |
| `SaveLoadRoundTrip.FreshIsSeeded` | av/main.c:1778-1783 | what the module adds on being loaded is exactly the seed |
| `SaveLoadRoundTrip.LoadRepeats` | userspace/avctl/avctl.c:936-957 | onto its own state it counts every trusted hash and every line that is no absolute path as an error, and changes nothing if and only if every path it takes from those lines is protected already |
| `SaveLoadNewlines.PathsOnlyProtect` | userspace/avctl/avctl.c:664-673 | whatever the listing of protected paths says, replaying what save makes of it changes nothing but the protected paths |
| `SaveLoadNewlines.NewlineSplitsPath` | userspace/avctl/avctl.c:664-673 | a path with a newline that comes back as two paths |
| `SaveLoadNewlines.HeaderRuns` | userspace/avctl/avctl.c:616-616 | what follows a newline in the name of the dump is run as a command of its own before the dump |

## Left out

- TlshStream.Context.Update: asks that the whole stream stays below 2^32 bytes, because the 32-bit length counter of the code wraps there; the callers cap the file size far below.
- TlshShim.HashFd: the same bound on the part of the file that is read; the reads are a schedule, which answers in full once it has run out.
- TlshShim.FeedFile: the same.
- TlshDistance.ByteDiffMetric: the 65,536-entry table is modelled by its rule (the difference of two 2-bit codes, 3 counted as 6, summed over the four codes of a byte); that the literal table follows the rule is an assumption. The triangle inequality fails and is not claimed.
- Sha256Stream.HashChunks: asks for messages below 2^64 bits, as FIPS 180-4 does; the read loop around it is not modelled.
- SlidingWindow.BurstIsReported: time is a non-decreasing tick count and the window a largest tick distance; jiffies wrap-around and the rounding of the millisecond conversion are not modelled.
- BehaviorTable.Table.CheckOpen: an entry carries the list of notes since its rings were emptied, which determines the ring, not the ring object; the path predicates and the open flags are parameters.
- BehaviorTable.Table.CheckRename: the same; the comparison of the two names is a parameter.
- BehaviorRuns.TableRecalls: for runs without allocation failures and sweeps; with equal stamps the bucket order decides which entry goes.
- VerdictChannel.Reachable: for the executions that `MemorySafety` calls safe; of the others only what `UseFollows` says.
- VerdictChannel.SecondWaitEnds: states that the owed steps exist and suffice, not that the scheduler takes them.
- ScanQueue.ShutdownDrains: states progress of every worker step and that one is always possible, not fairness of the scheduler; wake-ups without a signal are allowed.
- MetaText.ReadMeta: the file is a sequence of characters; opening it and following a link to it are not modelled.
- Quarantine.QuarantineFile: paths are names looked up literally, without link resolution in between; nobody else changes the files meanwhile; the trust check of the directory chain and the clock are parameters.
- Quarantine.RestoreFile: the original name is looked up literally, for the same reason.
- PathBuffer.ResolveAbsolutePath: what d_path answers is a parameter, an absolute string or a failure; for an empty path `PathBuffer.SelfDeleteDecides` takes it to be canonical, as d_path spells it.
- SigTable.Table.Add: the mutex and unload are not modelled; the other methods neither.
- ProcWrite.SigProcWrite: capability checks and failed copies from user space are not modelled.
- SaveLoad.SaveListing: the pinned directory, temporary file, sync and rename of a save are not modelled, nor a listing that changes while it is read.
- SaveLoadRoundTrip.LoadOfDump: memory suffices for the additions; the trusted and the protected table are a map and a set, not buckets; the target file's name has no newline (`SaveLoadNewlines.HeaderRuns` says what one does).
- VerdictHistory.History.Append: the 64-bit record number does not wrap.
- Admission.NeverOverCap: the counter does not wrap; which hook uses which cap is a parameter of the step.
- Kprobe handlers, register decoding, copies from user space, process and file lookups, the crypto interface, module start and unload: calls into the kernel.
- libnl, YARA, libfuzzy, score summation, corpora, environment parsing, the control socket and its commands other than restore.
- The graphical interface, packaging, rules and tests.
- Agreement with the upstream TLSH library.
