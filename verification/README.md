# A model of the repository's fail-closed readers

This project models, in Dafny, the readers under `tools/audit/` that open untrusted checkpoint
containers, and a few independent transformations with properties of the same kind. Each program is
modelled twice: as a function that says what it computes, and, where the program works by changing
things step by step, as a method or class that computes the same, proved equal to the function. The
theorems are about the functions and hold for every input, every run or every reachable state.

`dafny verify dfyconfig.toml` checks everything.

| program | modules |
|---|---|
| restricted pickle capture | TensorView, PickleValues, Preflight, PickleMachine, PickleSoundness, PickleWriter, PickleRoundTrip, PickleAccepted, Json, GraphWalk, SafeValue, JsonText, JsonRead, Capture, CaptureCost, CaptureKeys, CheckpointCapture, CaptureCharge |
| tar walk and nested range view | Octets, TarFields, Pax, TarWalk, TarRun, TarRoundTrip, TarForms, RangeSlice |
| GGUF and safetensors headers, canonical manifests | Manifest, Safetensors, Gguf, GgufAgree, GgufRoundTrip, GgufExact, GgufRun |
| changelog roll and extraction | ChangelogLines, ChangelogText, ChangelogPatterns, Changelog, ChangelogExtract, ChangelogRoll, ChangelogRolled, ChangelogDates, ChangelogRun |
| link-gate recovery | Recovery, RecoverySafety, RecoveryTheorems, RecoveryExact, RecoveryRun |
| SplitMix64, table-row splitter | SplitMix, RowSplit |
| shared | Wrappers, Sequences, Sorting |

## Where the code is narrower than its wording

- Preflight: a POP on an empty frame removes a mark the preflight still counts
  (`PickleSoundness.PopGapExample`), so depth is bounded by the count, not equal to it. The final balance
  check makes it equal after all: a complete run contains no such POP
  (`PickleSoundness.CompleteRunsNeverPopMarks`).
- Tar walk: PAX sizes go through `int()` alone, which on text takes negative numbers and the digits of every
  script. A global size between -1023 and -512 keeps the walk at one header for ever, in ASCII digits as
  in fullwidth ones (`TarRoundTrip.LoopingArchive`, `TarRoundTrip.StallingSpellings`). Every step of a run
  advances exactly when the sizes in effect for the members it skips are above -512
  (`TarRun.ProgressExact`); safety and termination hold under that condition on the run itself, which holds
  when `int()` makes no number of -512 or less of the sizes in the PAX headers it reads
  (`TarRun.StatedSizesDecide`).
- Safetensors: covering every byte exactly once does not suffice; an empty tensor strictly inside
  another is rejected (`Safetensors.CoverAloneIsNotEnough`). With that clause added the check is exact.
- Canonical manifests: injective for NUL-free names only (`Manifest.NulNamesCollide`).
- Changelog roll: the compare-link pattern ends in `\s*$`, which spans lines, so the blank lines behind
  the link go too, and the final line feed with them when nothing else follows. No section changes
  (`ChangelogRoll.LinkEditSections`).
- Changelog date: `--date` is written as it is given. A date with a line break puts further lines under the
  new heading, which can turn a sound document into an unsound one (`ChangelogDates.BrokenDate`). A roll
  keeps every document's notes as they are exactly when the date is one line (`ChangelogDates.DateExact`);
  the results about the roll hold for every date, of the document with these lines under its heading.
- Skipping GGUF reader: an array of arrays is left at its inner header (`GgufAgree.NestedArrayStops`).
- Link gate: the deadline is read once to admit a request and again for its timeout; when it passes in
  between, the request still goes out with the minimal timeout (`RecoveryTheorems.LateRequestExists`,
  `RecoveryTheorems.FetchLateExact`). Such a run fails, and the request is the last thing it does
  (`RecoveryTheorems.DeadlineKept`).

## What stands for what

- Exceptions are the absence of a result (`None`, `Failed`, `Raise`); messages are not modelled.
- Range readers, the clock and the HTTP server are arbitrary functions; the ZIP client is an arbitrary
  sequence of seeks and reads. Runs record what they read, sent and printed.
- `str.casefold`, `str.lower`, UTF-8 decodability, `int()` on decoded text, decoding with replacement, key
  hashing and equality, path normalization, the blob URL parser and the payload checks of the link gate are
  arbitrary functions; a theorem that needs a property of one states it (decoding with replacement keeps
  valid text; on ASCII text `int()` is the parser of module Pax, which only the tar round trips need; blob
  URLs and recheck URLs are disjoint, as they are on different hosts).
- Pickle opcodes are decoded values, one constructor for each behaviour of PEP 307 and PEP 3154 the
  allow list reaches. The opcode list the preflight iterates over is the one the machine executes.
- Python objects with an identity are positions in a heap, so graphs may share and be cyclic.
- Pickles, JSON texts, GGUF files, tar archives and manifests are also written in the model, by
  concatenation alone, so that a reader can be said to return what was written.
- Changelogs are lists of lines and a flag for the final line feed, read from and written to strings; names in tar and GGUF files are bytes.

## Model

| member | source | states |
|---|---|---|
| TensorView.ViewExact | tools/audit/firered_checkpoint_metadata.py:253-290 | a descriptor is produced if and only if rank, dimensions, strides and storage bytes are within bounds, the offset is within the storage and every multi-index below the shape addresses an element below the storage length; so the early exit never rejects a valid view and a zero dimension addresses nothing |
| TensorView.TensorSpan | tools/audit/firered_checkpoint_metadata.py:214-222 | the loop with its zero-dimension shortcut and early exit, against the recursive span |
| TensorView.SpanFromMeaning | tools/audit/firered_checkpoint_metadata.py:217-222 | the running span is the displacement of the last element plus its start, and the early exit fires only when that sum is over the bound |
| TensorView.DisplacementBound | tools/audit/firered_checkpoint_metadata.py:214-222 | no element of a view lies further than the last one |
| TensorView.LastElement | tools/audit/firered_checkpoint_metadata.py:214-222 | without a zero dimension the furthest displacement is reached by an actual element |
| TensorView.RebuildIsValid | tools/audit/firered_checkpoint_metadata.py:242-290 | from a storage reference as the loader builds it, the reducer only ever builds valid descriptors |
| TensorView.RevalidationExact | tools/audit/firered_checkpoint_metadata.py:554-575 | re-reading a descriptor gives back the same record for exactly the valid descriptors and fails on every other |
| Preflight.Check | tools/audit/firered_checkpoint_metadata.py:381-448 | the counting loop accepts exactly the streams whose every prefix stays within the opcode, memo, mark, string, frame, import and index limits, that start with PROTO 2 to 4, end at STOP on the last byte and close every mark |
| PickleSoundness.StepClosed | tools/audit/firered_checkpoint_metadata.py:293-328 | one allowed opcode, whatever it does, the calls of namespace attributes it can cause included, leads from the closed inert universe back into it |
| PickleSoundness.StepDepth | tools/audit/firered_checkpoint_metadata.py:428-435 | the exact change of the open marks by any opcode: what the preflight counts, less one when POP meets an empty frame |
| PickleSoundness.StepMemo | tools/audit/firered_checkpoint_metadata.py:418-427 | the memo grows by no more than the counted writes and only under keys of at most 8192 |
| PickleSoundness.EveryReachableState | tools/audit/firered_checkpoint_metadata.py:381-448 | main result: in every state reached by a run of a stream that passes the loop, open marks = counted marks less the marks removed by POP, hence at most 64; the memo has at most 8192 entries under keys at most 8192; stack, frames, memo and heap lie in the closed inert universe |
| PickleSoundness.CompleteRunsNeverPopMarks | tools/audit/firered_checkpoint_metadata.py:428-448 | main result: in a run of an accepted stream that executes every opcode no POP ever removed a mark, so the count is exact at every point and the final frame is the bottom one |
| PickleSoundness.PopGapExample | tools/audit/firered_checkpoint_metadata.py:428-435 | the inequality is needed: MARK, POP leaves no open mark where one is counted |
| PickleSoundness.ImportsAgree | tools/audit/firered_checkpoint_metadata.py:296-306 | the preflight allows an import if and only if find_class resolves it |
| PickleSoundness.CopyLaws | tools/audit/firered_checkpoint_metadata.py:331-379 | DUP does what storing the top in the memo and fetching it does, and POP undoes it |
| PickleSoundness.MarkLaws | tools/audit/firered_checkpoint_metadata.py:428-435 | POP_MARK brings back what the mark hid whatever was pushed since; POP does when nothing was |
| PickleRoundTrip.PickleRoundTrip | tools/audit/firered_checkpoint_metadata.py:242-328 | main result: for every tree of None, booleans, integers, floats, texts, imports, sets, lists, tuples, dictionaries, namespaces, ordered dictionaries with their metadata, storages and tensors with their key, location, element count, offset, shape and stride, the opcodes a pickler writes for it, with or without memo references and in marked or in batched form, run to STOP and leave a root that unfolds to that tree, every item and every tensor field in its place |
| PickleAccepted.PickleAccepted | tools/audit/firered_checkpoint_metadata.py:381-448 | main result: every such pickle within the limits on size, opcodes, nesting, memo and texts is let through by the preflight |
| PickleAccepted.AcceptedShape | tools/audit/firered_checkpoint_metadata.py:381-448 | what the preflight lets through has the protocol at the first byte and nowhere else, STOP at the last, at most 512 KiB and 32768 opcodes, and only listed imports, memo numbers to 8192 and texts of 16 KiB |
| GraphWalk.WalkExact | tools/audit/firered_checkpoint_metadata.py:451-520 | main result: over any heap, shared or cyclic, the walk succeeds if and only if the value has a finite unfolding of depth at most 64 within the node and output budgets; the result is that unfolding and the budget pays exactly its nodes and its cost |
| GraphWalk.WalkSound | tools/audit/firered_checkpoint_metadata.py:451-520 | a successful walk yields an unfolding, of bounded depth, and charges exactly its nodes and cost |
| GraphWalk.WalkComplete | tools/audit/firered_checkpoint_metadata.py:451-520 | a value with an unfolding within the budgets is never rejected, however much it shares |
| GraphWalk.UnfoldUnique | tools/audit/firered_checkpoint_metadata.py:451-520 | a value has at most one unfolding |
| GraphWalk.CycleRejected | tools/audit/firered_checkpoint_metadata.py:483-487 | every path on which an object occurs inside itself makes the walk fail, from any depth, active set and budget |
| CaptureKeys.NoCredential | tools/audit/firered_checkpoint_metadata.py:507-529 | main result: whatever the stream, no key of the captured arguments and state metadata, at any depth, is overlong or folds to the name of a credential |
| SafeValue.TraversalBudget.Consume | tools/audit/firered_checkpoint_metadata.py:195-198 | spends the amount or leaves the budget as it was |
| SafeValue.TraversalBudget.ConsumeOutput | tools/audit/firered_checkpoint_metadata.py:200-203 | spends the output amount or leaves the budget as it was |
| SafeValue.Safe | tools/audit/firered_checkpoint_metadata.py:451-520 | the walk as it runs computes the specified walk, spends the budget object as specified and restores the active set on success and on failure |
| SafeValue.SafeObject | tools/audit/firered_checkpoint_metadata.py:483-520 | the same for one container, its identity entered before and removed after |
| SafeValue.SafeItems | tools/audit/firered_checkpoint_metadata.py:488-503 | the item loop of lists and tuples |
| SafeValue.SafeMapping | tools/audit/firered_checkpoint_metadata.py:504-517 | mappings, their attributes and item limit |
| SafeValue.SafeEntries | tools/audit/firered_checkpoint_metadata.py:509-517 | the entry loop with its key checks and key charges |
| JsonText.CostBoundsText | tools/audit/firered_checkpoint_metadata.py:225-239 | the UTF-8 length of an unfolded value, written on one line, plus eight bytes for the separators around it, is at most its charged cost |
| JsonText.AtomFits | tools/audit/firered_checkpoint_metadata.py:459-482 | the same for every leaf, escapes included |
| JsonText.CostBoundsItems | tools/audit/firered_checkpoint_metadata.py:488-503 | the items of a list with their separators cost no more than the charges of the items |
| JsonRead.JsonRoundTrip | tools/audit/firered_checkpoint_metadata.py:225-239 | the one-line text whose length is bounded is a JSON text: a reader of RFC 8259 reads it back as exactly the value it was written from, so no two values share a text |
| JsonRead.RenderedRoundTrip | tools/audit/firered_checkpoint_metadata.py:451-520 | what the walk makes of any value is read back from its text |
| JsonText.QuoteShort | tools/audit/firered_checkpoint_metadata.py:225-229 | a quoted text takes at most six bytes a character and the quotes |
| CaptureCost.CaptureFits | tools/audit/firered_checkpoint_metadata.py:600-664 | main result: the one-line report of a successful capture takes at most what was consumed from the output budget, hence at most 2 MiB, and every tensor in it is a view inside its storage |
| CaptureCost.TensorsPaid | tools/audit/firered_checkpoint_metadata.py:584-590 | every state entry becomes the same tensor under the same name, valid, and charged exactly its descriptor cost |
| CaptureCost.DescriptorFits | tools/audit/firered_checkpoint_metadata.py:232-239 | a descriptor with its name, colon and comma takes at most its charge |
| CaptureCost.FieldsFit | tools/audit/firered_checkpoint_metadata.py:547-551 | the args fields with their names and separators take at most what they consumed |
| CaptureCost.StateFits | tools/audit/firered_checkpoint_metadata.py:578-597 | the tensor descriptors in name order and the state metadata take at most what they consumed |
| CaptureCost.ReportFits | tools/audit/firered_checkpoint_metadata.py:619-664 | everything fixed in the report fits the fixed charge of 8192 |
| Capture.ValidateArgs | tools/audit/firered_checkpoint_metadata.py:523-551 | the checks and the loop over the sorted fields, against the specified result and budget |
| Capture.ValidateTensors | tools/audit/firered_checkpoint_metadata.py:583-590 | the tensor loop, against the specified result and budget |
| Capture.ValidateStateDict | tools/audit/firered_checkpoint_metadata.py:578-597 | tensors and metadata, against the specified result and budget |
| Capture.Load | tools/audit/firered_checkpoint_metadata.py:604-609 | running the machine opcode by opcode gives the specified outcome |
| Capture.CaptureBytes | tools/audit/firered_checkpoint_metadata.py:600-664 | a report is returned if and only if the preflight accepts, the machine stops with a root, and the root is an envelope whose args and state validate within the budgets; it is then the specified report |
| CheckpointCapture.CaptureRoundTrip | tools/audit/firered_checkpoint_metadata.py:600-664 | main result: the capture of a pickled checkpoint, in whatever style it was pickled, is the report of exactly that checkpoint if its arguments, its tensors and the budgets allow it, and nothing otherwise |
| CheckpointCapture.RootExact | tools/audit/firered_checkpoint_metadata.py:523-617 | on any heap, a root that unfolds to a checkpoint is taken if and only if all mandatory arguments are there in range, every tensor is a view inside its storage and the budgets suffice; what is kept is that checkpoint |
| CaptureCharge.AffordableExact | tools/audit/firered_checkpoint_metadata.py:225-239 | the budgets allow a checkpoint if and only if its argument values, tensors and metadata are at most 8192 values and their charges (six bytes a character or the UTF-8 length if that is more and 64 for a text, 64 for another atom or a list, 96 for a tuple or dictionary, 512 and 64 a number for a tensor) with 8192 for the report are at most 2 MiB |
| CheckpointCapture.ReportContent | tools/audit/firered_checkpoint_metadata.py:619-664 | the report read back by name: every argument with its value, every tensor with its dtype, shape, stride, offset, storage key, location and element count each under its own name, the metadata, the sizes and the digest; both lists in the order of their names |
| Sorting.TextLessExact | tools/audit/firered_checkpoint_metadata.py:547-551 | names are in the order of the code points where they first differ |
| TarFields.OctalRoundTrip | tools/audit/hf_tar_contract.py:116-131 | the octal spelling of a number is read back exactly |
| TarFields.OctalExact | tools/audit/hf_tar_contract.py:116-131 | a field without the high bit reads as n if and only if it is spaces, octal digits that spell n, and NULs or spaces |
| TarFields.Base256RoundTrip | tools/audit/hf_tar_contract.py:121-125 | the base-256 spelling of a number is read back exactly: the marker bit is not part of the value |
| TarFields.HeaderRoundTrip | tools/audit/hf_tar_contract.py:138-147 | a header written in the ustar layout passes its checksum and gives back prefix and name, size and type, a NUL type as that of a regular file |
| TarFields.CorruptionRefused | tools/audit/hf_tar_contract.py:138-147 | any other byte at one place outside the checksum field makes a readable header unreadable |
| Pax.ParsePax | tools/audit/hf_tar_contract.py:150-169 | the cursor loop, against the specified parser |
| Pax.ParseExact | tools/audit/hf_tar_contract.py:150-169 | main result: a payload is accepted with a given dictionary if and only if well-formed records cover it without a gap and the dictionary is their last-wins map |
| Pax.StatedLengthIsFixed | tools/audit/hf_tar_contract.py:158-168 | for every body there is a stated length that counts its own digits |
| Pax.PaxRoundTrip | tools/audit/hf_tar_contract.py:150-169 | writing then parsing returns the written pairs, later ones winning, even when values hold equals signs or line feeds, if and only if every length has at most the 4300 digits int() takes |
| TarWalk.StepProgress | tools/audit/hf_tar_contract.py:199-269 | one round of the loop advances by a block at least if and only if the size in effect for the member it skips, if it skips one, is above -512 |
| TarWalk.StepIsOk | tools/audit/hf_tar_contract.py:199-269 | what one round touches and where it leaves the walk, for such a size: the inductive step of the safety result |
| TarRun.ProgressExact | tools/audit/hf_tar_contract.py:199-269 | in a run of any length every step advances by a block at least if and only if every size in effect for a member it skips is above -512 |
| TarRun.WalkSafety | tools/audit/hf_tar_contract.py:183-271 | main result: if every size in effect for a member the run skips is above -512, the offset grows by at least a block a step; headers, metadata and skipped payloads lie inside the archive, in order, disjoint and block-aligned (a payload of negative size covers no byte); metadata reads are at most 1 MiB; and the members listed are exactly the payload ranges skipped |
| TarRun.WalkTerminates | tools/audit/hf_tar_contract.py:199-271 | under the same condition on its own run the walk stops within one step more than the archive has blocks |
| TarRun.StatedSizesDecide | tools/audit/hf_tar_contract.py:227-256 | for every negative bound: if no PAX header the run reads states a size of the bound or less, whatever int() takes for a number, no member it skips has one in effect; nothing is asked of bytes the run does not read |
| TarRun.StatedSizesSuffice | tools/audit/hf_tar_contract.py:183-271 | main result: an archive whose PAX headers, as far as the walk reads them, state no size of -512 or less is walked safely, in the sense of WalkSafety, to an end |
| TarRun.StoppedIsListing | tools/audit/hf_tar_contract.py:183-271 | wherever a run stops, that is the outcome of the walk |
| TarRun.ListingEnds | tools/audit/hf_tar_contract.py:199-212 | a listing is given only where the first zero block the walk meets is followed by a second one, and both are the last it reads |
| TarRun.ListTar | tools/audit/hf_tar_contract.py:183-271 | the loop, on an archive whose own listing meets that condition, ends with the specified listing, and its calls of the range reader are exactly the header and metadata ranges of that listing |
| TarRun.OneStep | tools/audit/hf_tar_contract.py:199-269 | one round of the loop and the calls it makes |
| TarRun.NegativeSizeNeverEnds | tools/audit/hf_tar_contract.py:246-269 | with a size between -1023 and -512 in effect for every member, however it is spelled, the walk stays at one header for ever, listing a member each time |
| TarRoundTrip.TarRoundTrip | tools/audit/hf_tar_contract.py:183-271 | main result: for any members a writer puts down with any metadata in front, the listing has exactly their names, types, sizes and offsets; only global PAX attributes pass from one member to the next |
| TarRoundTrip.EntryRun | tools/audit/hf_tar_contract.py:227-269 | one member with its metadata: nothing of its own metadata remains pending afterwards |
| TarRoundTrip.LoopingArchive | tools/audit/hf_tar_contract.py:246-269 | a global PAX header with such a size in any spelling int() takes, and one ordinary header: the walk never ends, so the size condition cannot be dropped |
| TarRoundTrip.StallingSpellings | tools/audit/hf_tar_contract.py:246-251 | -512 in ASCII digits, and in fullwidth digits where int() reads them, which int() on the same bytes would refuse: both meet the conditions of LoopingArchive |
| TarForms.FormsAgree | tools/audit/hf_tar_contract.py:213-256 | whatever globals are in effect, a member written with ustar, base-256, GNU long-name or PAX path, size or both reads back under its own name, type and size if and only if it overrides the globals that concern it or agrees with them |
| TarForms.ArchiveRoundTrip | tools/audit/hf_tar_contract.py:183-271 | main result: for any sequence of names and contents, each in any of these forms and with global PAX headers anywhere between them, the listing of the written archive has exactly those names, types, sizes and offsets if and only if every member overrides the globals in effect where it stands or agrees with them |
| RangeSlice.Slice.constructor | tools/audit/hf_tar_torch_contract.py:60-83 | a fresh slice stands at 0 with nothing received |
| RangeSlice.Slice.SeekTo | tools/audit/hf_tar_torch_contract.py:94-108 | the specified reply and fields |
| RangeSlice.Slice.ReadSome | tools/audit/hf_tar_torch_contract.py:110-135 | the specified reply, fields and underlying read |
| RangeSlice.Drive | tools/audit/hf_tar_torch_contract.py:94-135 | any sequence of seeks and reads on the object gives the specified session |
| RangeSlice.SessionInside | tools/audit/hf_tar_torch_contract.py:94-135 | whatever the source serves: every underlying read stays inside the member, the position stays in 0..size, and the bytes received are those delivered and never exceed the budget |
| RangeSlice.SliceRefinesFile | tools/audit/hf_tar_torch_contract.py:57-135 | main result: every reply that is not a failure is the one an in-memory file of the member gives, positions agree, and a failure changes nothing |
| RangeSlice.AnswersExact | tools/audit/hf_tar_torch_contract.py:94-135 | a seek is answered if and only if its goal lies in the member or at its end; a read over a source that serves the member, if and only if what an in-memory file would give is nothing or fits the limit of one read and the budget |
| RangeSlice.FindExact | tools/audit/hf_tar_torch_contract.py:150-157 | a member is selected if and only if the requested and every listed name normalize and it alone has the normalized name requested |
| RangeSlice.NestedAuditTouches | tools/audit/hf_tar_torch_contract.py:181-217 | main result: on an archive whose listing meets the size condition, whatever the ZIP client asks for, each read lies in the payload of the member that alone has the requested name, which is apart from every header, every metadata payload and every other payload |
| RangeSlice.AuditNested | tools/audit/hf_tar_torch_contract.py:181-217 | the audit up to the ZIP client: it gets through if and only if the listing is done, one member alone has the requested name, and its window is valid; its replies and the ranges it requests are those of a session on that window |
| SplitMix.SplitMix64.NextU64 | tools/parity/aec_dump.py:159-164 | the object yields the specified stream value by value |
| SplitMix.GenFar | tools/parity/aec_dump.py:167-171 | the far-end noise is that stream reduced to the amplitude, within it at every sample |
| SplitMix.ScrambleBijective | tools/parity/aec_dump.py:161-164 | the output mix is one to one and onto the 64-bit numbers, with its inverse |
| SplitMix.FirstValue | crates/vokra-core/src/rng/mod.rs:249-256 | the first value of the stream of seed 0 is the published constant the shared generator is tested against |
| SplitMix.XorBit | tools/parity/aec_dump.py:162-164 | bit by bit, the exclusive or |
| SplitMix.ShrIsDivision | tools/parity/aec_dump.py:162-164 | the shift is the division by a power of two |
| SplitMix.StateClosedForm | tools/parity/aec_dump.py:160 | the k-th state is seed + k * gamma modulo 2^64 |
| SplitMix.FullPeriod | tools/parity/aec_dump.py:156-160 | two states are equal if and only if a multiple of 2^64 draws lies between them |
| SplitMix.EachValueOncePerPeriod | tools/parity/aec_dump.py:150-164 | main result: for every seed, the k-th draw is v if and only if k is congruent to one draw index, so each 64-bit value comes exactly once per period |
| Safetensors.DimensionProduct | tools/audit/moss_audio_tokenizer_v2_manifest.py:624-628 | the accumulating loop, against the product |
| Safetensors.CheckContiguous | tools/audit/moss_audio_tokenizer_v2_manifest.py:210-221 | the cursor loop, against the contiguity of the sorted ranges |
| Safetensors.ReadHeader | tools/audit/moss_audio_tokenizer_v2_manifest.py:140-222 | the header is accepted if and only if sizes are consistent, every descriptor matches its dtype and shape inside the payload, there is a tensor, and the ranges tile the payload; it then gives the tensors described |
| Safetensors.EntriesExact | tools/audit/moss_audio_tokenizer_v2_manifest.py:166-207 | the entries of a header are in order if and only if the metadata is an object and every other one has a known type, a shape of non-negative numbers and two offsets inside the payload, as many bytes apart as its elements take; exactly these are reported, with their type, shape and offsets |
| Safetensors.TilingExact | tools/audit/moss_audio_tokenizer_v2_manifest.py:210-221 | main result: in whatever order the descriptors come, the sorted cursor walk accepts if and only if every payload byte belongs to exactly one range and no empty range lies strictly inside another |
| Safetensors.TilingSums | tools/audit/moss_audio_tokenizer_v2_manifest.py:191-221 | the byte counts of a tiling sum to the payload size |
| Safetensors.CoverAloneIsNotEnough | tools/audit/moss_audio_tokenizer_v2_manifest.py:210-221 | covering every byte once is not sufficient: an empty tensor strictly inside another is rejected |
| Manifest.ManifestBytes | tools/audit/moss_audio_tokenizer_v2_manifest.py:431-440 | the byte-extending loops give the canonical bytes, and fail exactly when a number does not fit its field |
| Manifest.EncodeInjective | tools/audit/hf_gguf_contract.py:147-153 | canonical bytes of NUL-free names and 64-bit numbers determine the sequence of entries |
| Manifest.CanonicalBytes | tools/audit/moss_audio_tokenizer_v2_manifest.py:431-440 | main result: two manifests have the same canonical bytes if and only if they are the same dictionary, in whatever order each was built |
| Manifest.CanonicalLayout | tools/audit/moss_audio_tokenizer_v2_manifest.py:431-440 | main result: the hashed bytes are the entries in the byte order of their names, each one its name, a NUL, its rank and its dimensions in order, every number as eight bytes with the lowest first, one entry right behind the other and nothing else |
| Manifest.NulNamesCollide | tools/audit/moss_audio_tokenizer_v2_manifest.py:435-439 | with a NUL inside a name two different manifests share their bytes |
| RowSplit.SplitMarkdownRow | scripts/publish/signoff_match.py:1908-1949 | the character loop, against the recursive splitter |
| RowSplit.SplitJoin | scripts/publish/signoff_match.py:1908-1949 | splitting the join of escaped fields returns exactly those fields, for every non-empty list |
| RowSplit.FieldCount | scripts/publish/signoff_match.py:1928-1949 | for every line the fields are one more than the pipes behind an even run of backslashes |
| RowSplit.SplitExact | scripts/publish/signoff_match.py:1908-1949 | main result: every line is spelled by tokens (separating pipes, escaped pipes and backslashes, lone backslashes, other characters) and splits into exactly the fields they mean, a lone backslash kept |
| ChangelogLines.DatedHeadingParses | scripts/release/roll-changelog.py:41 | a dated heading the roll writes, when the date is one line, is read as a heading of that version and date |
| ChangelogLines.LinkLineParses | scripts/release/extract-changelog.py:41 | a link line the roll writes is read as that link and ends a section |
| ChangelogLines.CompareUrlParses | scripts/release/roll-changelog.py:45-48 | a compare link the roll writes is recognized as one, whatever base and version hold |
| ChangelogLines.LineKinds | scripts/release/extract-changelog.py:37-41 | links, headings and blank lines exclude one another |
| ChangelogPatterns.StripExact | scripts/release/extract-changelog.py:60-62 | stripping leaves t if and only if the text is t between spaces and t has none at its ends |
| ChangelogPatterns.HeadingExact | scripts/release/extract-changelog.py:37 | a line is a heading of a version and a date if and only if it is ##, spaces, a bracketed name and nothing or a dash with some text, the version and the date these stripped |
| ChangelogPatterns.FooterExact | scripts/release/roll-changelog.py:42 | a line is a link if and only if it is a bracketed name, a colon, spaces, the URL and spaces |
| ChangelogPatterns.StopsExact | scripts/release/extract-changelog.py:39-41 | a section ends at exactly the lines that are ## and a space with anything behind, or a bracketed name, a colon, spaces and more |
| ChangelogPatterns.CompareExact | scripts/release/roll-changelog.py:45-48 | the base of a compare link is the shortest one of all readings as base, /compare/, a version and ...HEAD |
| ChangelogRun.ListHeadings | scripts/release/roll-changelog.py:56-62 | the loop, against the heading list |
| ChangelogRun.ListFooter | scripts/release/roll-changelog.py:65-71 | the loop, against the last-wins dictionary |
| ChangelogRun.Check | scripts/release/roll-changelog.py:74-105 | the list holds exactly the problems of the document, and is empty if and only if the document is sound |
| ChangelogRun.RollText | scripts/release/roll-changelog.py:108-144 | the roll as it runs, every failure included, against the specified document |
| ChangelogRun.ExtractSection | scripts/release/extract-changelog.py:49-87 | the extraction as it runs, both failures included, against the specified section |
| ChangelogExtract.ExtractExact | scripts/release/extract-changelog.py:49-87 | main result: nothing is found if and only if no heading names the section; notes with a date are returned if and only if the document is lines that do not name it, its heading of that date, blank lines, these notes with no blank line at either end and no line that ends a section, blank lines, and nothing or a line that ends it; empty likewise without notes |
| ChangelogText.ReadWritten | scripts/release/roll-changelog.py:56-62 | lines and final line feed are what the written string is read back as if and only if no line holds a line break and the flag fits the last line |
| ChangelogText.WrittenRead | scripts/release/roll-changelog.py:117-131 | every string whose only line breaks are line feeds is written back as it was read |
| ChangelogRoll.RollKeepsMeaning | scripts/release/extract-changelog.py:49-87 | main result: for a document with an Unreleased heading and a compare link, one heading that folds to unreleased and none that folds to the version, extracting the version after the roll gives the body Unreleased had before, the new Unreleased section is empty, and every other extraction is unchanged; the further lines of a date that has any count as lines of the Unreleased section |
| ChangelogRolled.RollExact | scripts/release/roll-changelog.py:117-144 | main result: with a date of one line, the rolled lines are the old ones with the first Unreleased heading replaced by a fresh one, an empty line and the dated heading, and the first compare link with the blank lines behind it by the two new links, in these very characters |
| ChangelogRolled.RollRefused | scripts/release/roll-changelog.py:108-136 | no text is returned if and only if a heading already names the version, or none is Unreleased, or no line is the compare link |
| ChangelogRoll.RollKeepsIntegrity | scripts/release/roll-changelog.py:74-144 | for any date, a sound document is sound after the roll if and only if the document with the further lines of the date under its Unreleased heading is, and they do not name the version; with a date of one line that document is the document itself; rolling again to the same version changes nothing |
| ChangelogRoll.RollWrites | scripts/release/roll-changelog.py:108-144 | a roll with an Unreleased section and a compare link always succeeds, puts exactly the version behind Unreleased in the heading list, and leaves every other footer entry as it was |
| ChangelogRoll.RollKeepsValid | scripts/release/roll-changelog.py:117-144 | the string a roll writes is read back as the rolled lines, whatever the date |
| ChangelogDates.DateExact | scripts/release/roll-changelog.py:117-131 | main result: a date moves the notes of every document under the version line by line if and only if it is one line |
| ChangelogDates.BrokenDate | scripts/release/roll-changelog.py:117-131 | a sound document and a date with a line feed after which the rolled document is not sound |
| ChangelogRoll.LinkEditSections | scripts/release/roll-changelog.py:133-144 | the footer edit, with the blank lines it swallows, changes no section |
| ChangelogRoll.HeadingEditMoves | scripts/release/roll-changelog.py:117-131 | the heading edit, with a date of one line, moves the old section under the version and leaves a blank one in its place |
| ChangelogRoll.SmallestDocument | scripts/release/roll-changelog.py:74-105 | a heading, a line of notes and a compare link are a sound document, so the conditions of the roll results can be met |
| GgufRun.ParseHeader | tools/audit/hf_gguf_contract.py:119-162 | the reader as it runs, against the specified header; packing the canonical manifest cannot fail |
| GgufRun.ReadValue | tools/audit/hf_gguf_contract.py:107-116 | the recursive value reader, position included |
| GgufRun.ReadCard | scripts/publish/make_model_card.py:105-124 | the skipping reader as it runs, against the specified header |
| GgufRun.ReadCardValue | scripts/publish/make_model_card.py:141-162 | its value reader, position included |
| GgufRun.ReadManifestFile | tools/audit/gguf_manifest.py:78-109 | the manifest reader as it runs, against the specified result |
| GgufRun.ReadFlatValue | tools/audit/gguf_manifest.py:64-75 | its value reader, position included |
| GgufRoundTrip.FileRoundTrip | tools/audit/hf_gguf_contract.py:119-162 | main result: a file written from any entries, nested arrays included, and any tensors by little-endian numbers and concatenation is read back as exactly these: every key with the value written last, every tensor with its name, its dimensions in order, its type and offset, and the length of the header |
| GgufExact.HeaderExact | tools/audit/hf_gguf_contract.py:67-162 | main result: a file has a header if and only if it begins with such a written file of version 3 |
| GgufRoundTrip.OtherVersions | tools/audit/hf_gguf_contract.py:119-126 | of the written files of every version the full reader takes those of version 3 only |
| GgufRoundTrip.FileSkipped | scripts/publish/make_model_card.py:105-162 | the skipping reader returns the same keys, shown values, names, shapes, types and end of a written file without non-empty arrays of arrays |
| GgufRoundTrip.FileManifest | tools/audit/gguf_manifest.py:64-109 | the manifest reader takes a written file if and only if its version is 2 or 3 and its arrays are flat, and returns the same of it, the version as an entry underneath |
| GgufAgree.PrefixExact | tools/audit/hf_gguf_contract.py:119-162 | main result: if a prefix has a header, every extension has the same one, and among the prefixes of a file exactly those of at least headerBytes bytes have it |
| GgufAgree.SkipExact | scripts/publish/make_model_card.py:141-162 | on any value the full reader decodes the skipping reader succeeds, keeps what its table says, and stops at the same byte if and only if the value is not a non-empty array of arrays |
| GgufAgree.StopsExact | scripts/publish/make_model_card.py:114-116 | the two readers stop at the same byte behind every entry if and only if no entry is a non-empty array of arrays |
| GgufAgree.SkippingAgrees | scripts/publish/make_model_card.py:105-124 | main result: on a file the full reader accepts, without such arrays, the skipping reader accepts, with the same metadata keys, corresponding values, the same tensors and the same end |
| GgufAgree.NestedArrayStops | scripts/publish/make_model_card.py:141-162 | a file of 60 bytes with an array of one empty array: the full reader reads all of it, the skipping reader stops at byte 48 |
| GgufAgree.FlatExact | tools/audit/gguf_manifest.py:64-75 | the manifest reader decodes exactly the values whose arrays are neither of arrays nor of an unknown kind, and decodes them as the full reader does |
| GgufAgree.ManifestExact | tools/audit/gguf_manifest.py:78-109 | main result: on version 3 the manifest reader accepts exactly the files the full reader accepts whose arrays are all of that sort, with the same tensors and end and its own version entry underneath the metadata |
| GgufAgree.ManifestThenSkip | tools/audit/gguf_manifest.py:78-109 | a version 3 file the manifest reader accepts never derails the skipping reader |
| GgufAgree.SmallestHeader | tools/audit/hf_gguf_contract.py:119-162 | 24 bytes without entries and tensors have a header, so the conditions of the prefix and agreement results can be met |
| RecoveryRun.Gate.RequestJson | scripts/check-github-blob-link-report.py:539-579 | one request: the readings, the timeout, the checks of the reply |
| RecoveryRun.CountRefs | scripts/check-github-blob-link-report.py:607-616 | the ref loop, against the count |
| RecoveryRun.Gate.VerifyRef | scripts/check-github-blob-link-report.py:582-620 | the loop over both kinds of refs |
| RecoveryRun.Gate.Recover503 | scripts/check-github-blob-link-report.py:515-536 | one blob recovery |
| RecoveryRun.Gate.Recover403 | scripts/check-github-blob-link-report.py:499-512 | one API recheck |
| RecoveryRun.Gate.Sort | scripts/check-github-blob-link-report.py:638-650 | the loop that sorts error bodies into candidates, each URL once |
| RecoveryRun.ValidateReport | scripts/check-github-blob-link-report.py:202-292 | the counters and the loops over the failure maps, against the specified result |
| RecoveryRun.Gate.Check | scripts/check-github-blob-link-report.py:623-666 | the whole gate: what it uses of the clock and the server, and that it prints the specified lines on success and nothing otherwise |
| RecoveryTheorems.NoEarlyRequest | scripts/check-github-blob-link-report.py:631-658 | no request is sent unless the report is valid with exit code 2, every error body is eligible, there are one to ten candidates and the token is usable |
| RecoveryTheorems.EachOnce | scripts/check-github-blob-link-report.py:636-666 | main result: in any run each distinct error URL is begun at most once, at most ten are, with at most thirty requests; in a passing run every error URL is, with exactly one line each |
| RecoveryTheorems.PassIsProof | scripts/check-github-blob-link-report.py:640-666 | main result: a passing run has for every error body replies on record that prove it, each not redirected, of status 200, not oversized and, for refs and rechecks, on one page |
| RecoveryTheorems.CountExactMeaning | scripts/check-github-blob-link-report.py:606-616 | the count succeeds if and only if every entry lies under refs/heads/ or refs/tags/ and none goes on below the ref, and is then the multiplicity of the full ref name |
| RecoveryTheorems.UnambiguousProves | scripts/check-github-blob-link-report.py:594-620 | a ref is accepted only as a SHA-1 or on two lists of less than a hundred entries, each on one page, in which the full ref name occurs once in all and nothing extends it |
| RecoveryExact.ReportExact | scripts/check-github-blob-link-report.py:202-292 | a report is valid if and only if successes, unknown, unsupported, timeouts, excludes and errors add up to the total, unique and cached fit it, both failure maps hold non-empty lists of sound bodies within their counters, timeouts have no code and the exit code fits; the error bodies are handed on list after list |
| RecoveryExact.PassExact | scripts/check-github-blob-link-report.py:623-666 | main result: before a server that answers every request the same each time and with time enough, a run on exit code 2 passes if and only if the token is usable, the report is valid and without timeouts, there are one to ten distinct URLs, and every error body has its evidence; it then prints one line for each, blobs first, in the order of the bodies |
| RecoveryExact.NothingToRecover | scripts/check-github-blob-link-report.py:631-635 | on any other exit code the gate sends nothing, and passes if and only if the report is valid |
| RecoveryTheorems.DeadlineKept | scripts/check-github-blob-link-report.py:548-565 | every request follows a reading before the deadline, with the timeout of the next reading; under a monotone clock a run starts one late if and only if its first reading past the deadline is directly followed by a request, at most one, as the last act of a failing run, and a passing run starts none late |
| RecoveryTheorems.FetchLateExact | scripts/check-github-blob-link-report.py:548-556 | a request starts late if and only if the deadline falls between the two readings in front of it |
| RecoveryTheorems.LateRequestExists | scripts/check-github-blob-link-report.py:548-556 | a run with a monotone clock and the recheck table of the program in which that happens |

## Left out

- TarRun.ListTar: requires that no member of the listing has a size of -512 or less in effect, because without it the loop need not end; the code itself does not check.
- RecoveryTheorems.DeadlineKept: does not say that no request starts after the deadline, because that is false; see RecoveryTheorems.LateRequestExists.
- CaptureCost.CaptureFits: covers one-line JSON with separators of at most two bytes, not the indented form the command prints, which has its own size check.
- PickleRoundTrip.PickleRoundTrip: the writer never uses DUP, POP, POP_MARK or PERSID, writes a container in one batch, and refers to the memo for texts and imports only; these opcodes, splits and shared objects are covered by the results on every reachable state and on the walk.
- RecoveryExact.PassExact: says when a run passes only before a server that answers every request the same each time; what a pass proves is said of every server.
- GgufAgree.SkippingAgrees: says nothing about files with non-empty arrays of arrays, on which the skipping reader reads on inside the array.
- Preflight.Check: the byte decoder (`pickletools.genops`, `pickle.Unpickler` framing) is not modelled; FRAME changes nothing in the machine.
- BUILD on anything but namespaces, ordered dictionaries and the three descriptors: with state None it does nothing, with any other state it is rejected. A scope assumption.
- Attributes are looked up where the unpickler does so on a namespace (`extend`, `append`, `add`, `__setstate__`, and `keys` or `items` for an ordered dictionary's argument); the attributes of functions and classes are taken as they are defined. A scope assumption.
- The order in which Python iterates over a set: insertion order in the model.
- Filling containers with an empty run of items (APPENDS, SETITEMS, ADDITEMS right after MARK) is left to what the C unpickler does: nothing.
- Recursion limits and memory limits of the Python interpreter.
- Lone surrogates in Python strings.
- Line breaks other than LF in changelogs; in a date each of them counts as a line feed.
- An Unreleased link whose URL stands on a later line than its label.
- A version argument that ends in a line feed, which the semver pattern of roll-changelog.py lets through.
- SHA-1, SHA-256, base64, the JSON and ZIP decoders, and the regular expression engine: theorems are about the bytes that are hashed and about lines.
- `_verify_content`, `_verify_api_recheck_payload` and `parse_blob_target` of the link gate: parameters of the model; the success, excluded, suggestion and redirect maps of a report count as part of its shape.
- HTTP, file descriptors, git, subprocesses and argument parsing.
- `read_text_members` and the tar manifest digest, the pinned tables, `validate_config`, `validate_gguf`, `approval_for_repo`, `convolve_echo` and the speech generator: finite data, floats, or smaller members of the same kind.
- `torch_pickle_manifest.py`: the same idea as the capture without preflight and budgets.
