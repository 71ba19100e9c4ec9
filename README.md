# Audio dataset segmentation and assembly, in Dafny

This project models the core of `AudioDataProcessor`, the part of an audio
dataset preparation tool that turns source recordings into fixed-length,
energy-filtered segments and files them into "calibration" and "evaluation"
buckets per domain (speech, music, environmental), under a quota per
(domain, split) pair. It also models the ledger of processed source files
that lets repeated runs skip work already done.

The model has four modules, one per layer of the source class:

- `Text` (`text.dfy`): `os.path.basename`, path joining, and the `{n:04d}`
  zero-padded decimal index in output names, with a parser that reads the
  index back.
- `Signal` (`signal.dfy`): sample buffers as sequences of reals. It holds
  the RMS energy floor of 0.01, peak normalisation as `librosa.util.normalize`
  does it with its defaults, and DC-offset removal.
- `Segmentation` (`segmentation.dfy`): the configuration derived in
  `__init__`, the decoder's outcome (no audio track, a decoded buffer, or an
  exception), and `load_and_process_audio`. That is the short-clip fallback,
  or the sliding window of `targetSamples` samples that advances by
  `targetSamples + gapSamples`. It is a method with a `while` loop, proved
  equal to a declarative definition: the windows that start at `k * step`
  and fit, filtered by the energy floor.
- `DataProcessor` (`data_processor.dfy`): the class `AudioDataProcessor`
  with its ledger field `processedFiles`, an insertion-ordered dictionary
  from basename to record, like a Python dict. It has
  `process_domain_files` (the batcher) and `create_dataset_splits` (the
  assembler) as methods with loops. Each is proved equal to a function:
  `Batch` folds a per-file step `VisitFile` over the candidate files, and
  `Assemble` runs `Batch` for the three domains on calibration, then on
  evaluation. The lemmas state the quota, naming, skip, record and
  split-separation properties of those functions.

The decoder (`load_audio_file`) is the parameter `load: string -> LoadOutcome`.
The wall clock (`datetime.now()`) is the parameter `clock: nat -> string`;
`clock(k)` is the reading taken when the processor makes its k-th record.

Two behaviours of the code are easy to misread; the model follows the code:

- A file met at the loop head once the quota is full is neither loaded nor
  recorded. The `break` at audio_data_processor.py:154-155 comes before the
  load. Only a file whose segments are cut off partway (:164-165) gets a
  record, and that record lists only the outputs actually written.
  `ThirdFileAfterFullQuota` shows this with three single-segment files and a
  quota of two.
- The evaluation passes never take a file the calibration passes recorded.
  `create_dataset_splits` resets only `segment_stats` and
  `processed_segments`, which nothing reads. It never clears
  `self.processed_files`, so :157-158 skips those basenames in the
  evaluation passes. Each (domain, split) quota still starts from zero,
  because the output list is local to each call.
  `AssembleSeparatesSplits` states this in terms of outputs. The records
  added by the calibration passes list exactly the calibration buckets'
  output names, and those added by the evaluation passes list exactly the
  evaluation buckets' names. No basename is keyed by both, so no source file
  contributes outputs to both splits.

## Model

| member | source | states |
|---|---|---|
| `Text.BasenameIsLastComponent` | audio_data_processor.py:146 | the basename is the suffix of the path after its last '/', holds no '/', and is the whole path when there is no '/' |
| `Text.DecimalRoundTrip` | audio_data_processor.py:167 | the decimal digits of an index parse back to that index |
| `Text.Pad4RoundTrip` | audio_data_processor.py:167 | the `{n:04d}` rendering (at least four digits, zero-padded) parses back to `n`, so leading zeros lose nothing |
| `Segmentation.TruncToInt` | audio_data_processor.py:34-35 | Python's `int()` on a float truncates toward zero: the result is within 1 of the input, on the same side of zero |
| `Segmentation.MakeConfig` | audio_data_processor.py:32-37 | each sample count `n` is `rate × seconds` truncated toward zero: `0 ≤ n ≤ rate × seconds < n + 1` for a non-negative product, `n − 1 < rate × seconds ≤ n ≤ 0` for a negative one; the rate and quotas are kept as given |
| `Segmentation.DefaultSampleCounts` | audio_data_processor.py:13-19 | the defaults give 441000-sample windows and 88200-sample gaps at 44100 Hz |
| `Signal.NormalizeBounded` | audio_data_processor.py:100 | after peak normalisation every sample lies in [-1, 1] (a silent buffer comes back unchanged, all zeros) |
| `Signal.NormalizedPeakIsOne` | audio_data_processor.py:100 | a buffer that is not silent has peak magnitude exactly 1 after normalisation |
| `Signal.RemoveDcCentres` | audio_data_processor.py:101 | after subtracting the mean, the buffer sums to zero |
| `Signal.ConstantEnergy` | audio_data_processor.py:92-93 | a steady buffer passes the RMS floor exactly when its amplitude squared reaches 0.01 squared |
| `Segmentation.WindowFits` | audio_data_processor.py:106 | a window at `k * step` fits in the buffer exactly when `k < (L - T) / step + 1` (and no window fits when `L < T`), so the loop stops at the first window that would overrun |
| `Segmentation.WindowGeometry` | audio_data_processor.py:106-108 | attempted window `k` is `buf[k*step .. k*step + T]`: exactly T samples, inside the buffer |
| `Segmentation.KeptBound` | audio_data_processor.py:113-115 | no more segments are kept than windows attempted |
| `Segmentation.KeptMembers` | audio_data_processor.py:110-115 | a segment is kept if and only if it is an attempted window that passes the energy floor, at the buffer's rate |
| `Segmentation.KeptInOrder` | audio_data_processor.py:106-118 | kept segment `j` is window `ks[j]`, the `ks` strictly increase, and every window passing the floor is among them |
| `Segmentation.ShortClipFallback` | audio_data_processor.py:86-97 | no audio gives no segments; a clip shorter than T is returned whole and un-normalised if it passes the floor, and dropped otherwise |
| `Segmentation.FiveSecondClip` | audio_data_processor.py:90-94 | a 5-second steady clip of amplitude 0.05 against 10-second windows comes back as one segment, the whole clip |
| `Segmentation.TwentyFiveSecondBuffer` | audio_data_processor.py:103-118 | 1102500 samples, T = 441000, step 529200: exactly two windows, at 0 and 529200 |
| `Segmentation.WindowedSegments` | audio_data_processor.py:99-120 | in the windowing path there are at most `(L - T) / step + 1` segments, each exactly T samples, passing the floor |
| `Segmentation.SlideWindows` | audio_data_processor.py:103-120 | the window loop returns exactly the energetic windows of the declarative window sequence, in order |
| `Segmentation.LoadAndProcessAudio` | audio_data_processor.py:69-124 | the segmenter's result equals `SegmentsOf`: a decoder exception propagates, no audio gives `[]`, then the short-clip or window path |
| `DataProcessor.OutputNameRoundTrip` | audio_data_processor.py:167 | the index can be read back from `{domain}_{index:04d}.wav` |
| `DataProcessor.OutputNamesDistinct` | audio_data_processor.py:167 | different indices give different output names |
| `DataProcessor.OutputPathsDistinct` | audio_data_processor.py:167-172 | the paths of one bucket, `output_dir/set_type/domain/{domain}_{i:04d}.wav` for i = 0..n-1, are pairwise different |
| `DataProcessor.VisitEffect` | audio_data_processor.py:143-180 | one file either stops the loop (only when its basename is new to earlier runs and the quota is met) or leaves everything unchanged, or adds one record under its basename. That record names exactly the outputs written, from the running count up to at most the quota |
| `DataProcessor.VisitSkips` | audio_data_processor.py:148-160 | a file whose basename was done in an earlier run or is already recorded, or whose processing raises, writes nothing and gets no record |
| `DataProcessor.VisitWrites` | audio_data_processor.py:160-178 | a new file below the quota whose segmenting succeeds writes `min(segments, quota - count)` outputs and is recorded with exactly their names |
| `DataProcessor.BatchQuotaFull` | audio_data_processor.py:149-155 | once the quota is met at the loop head, no further file changes the state |
| `DataProcessor.BatchCount` | audio_data_processor.py:132-165 | the output count only grows and ends at or below the split's quota (or unchanged if it began above it) |
| `DataProcessor.BatchLedger` | audio_data_processor.py:146-180 | existing records are never overwritten; new keys are appended; each new record's path is a candidate file whose basename is its key and not one done in an earlier run |
| `DataProcessor.BatchRecords` | audio_data_processor.py:152-178 | the new records, read in insertion order, list exactly the output names written in the call, in order |
| `DataProcessor.BatchRerun` | audio_data_processor.py:148-158 | over files whose basenames are all done or recorded, a call writes nothing and changes no record |
| `DataProcessor.ThirdFileAfterFullQuota` | audio_data_processor.py:152-155 | with a quota of two and three single-segment files, outputs 0 and 1 come from the first two files, and the third gets no record |
| `DataProcessor.RunPassesEffect` | audio_data_processor.py:202-210 | the passes of one split add one bucket per domain, each within that split's quota, leave other buckets alone, and only extend the ledger |
| `DataProcessor.SplitKeysDiffer` | audio_data_processor.py:185 | no `{domain}_calibration` key equals a `{domain}_evaluation` key |
| `DataProcessor.AssembleKeys` | audio_data_processor.py:195-226 | the manifest has exactly the six keys speech/music/environmental × calibration/evaluation |
| `DataProcessor.AssembleQuotas` | audio_data_processor.py:201-224 | each domain's calibration bucket is within the calibration quota and its evaluation bucket within the evaluation quota |
| `DataProcessor.AssembleSeparatesSplits` | audio_data_processor.py:201-224 | the records the calibration passes add, in insertion order, list exactly the output names of the speech, music and environmental calibration buckets, in that order; those the evaluation passes add list exactly the evaluation buckets' names; no key of an evaluation-added record was recorded by calibration, so no source file contributes outputs to both splits |
| `DataProcessor.RunPassesRecords` | audio_data_processor.py:202-210 | over jobs for different domains, the records one split's passes add, in insertion order, list exactly the output names of the split's buckets, job after job, each bucket as long as the manifest has it |
| `DataProcessor.AudioDataProcessor.constructor` | audio_data_processor.py:13-43 | the configuration is derived by `MakeConfig`, the earlier-run set is kept, and the ledger starts empty |
| `DataProcessor.AudioDataProcessor.ProcessDomainFiles` | audio_data_processor.py:126-185 | the new ledger and the returned `{domain}_{set_type}` bucket are those of `Batch`; the bucket is the first `count` output paths |
| `DataProcessor.AudioDataProcessor.CreateDatasetSplits` | audio_data_processor.py:187-226 | the manifest and the ledger are those of `Assemble`: three calibration passes, then three evaluation passes, merged |

## Left out

- `load_audio_file` (MP4 audio extraction, `librosa.load`, stereo averaging) is not modelled. It calls foreign libraries and does floating-point resampling. Its outcome is the parameter `load`: no audio track, a buffer with its rate, or an exception.
- Floating point: samples are exact reals. The RMS test `sqrt(mean(x**2)) >= 0.01` is modelled as `len > 0 and sum(x**2) >= 0.0001 * len`. Over reals the two agree on every non-empty buffer. An empty buffer fails both: the source's test because the mean is NaN, the model's because of the `len > 0` conjunct. Rounding, NaN and infinite samples are not modelled. `librosa.util.normalize` raises on non-finite input; that is not modelled either.
- `Signal.Normalize`: `librosa.util.normalize` leaves a buffer alone when its peak is below the smallest normal float. The model leaves it alone only when its peak is exactly 0.
- `Segmentation.MakeConfig`: `target_sr * target_duration` is computed exactly, not as a rounded float product, before truncation.
- `DataProcessor.AudioDataProcessor.constructor` requires a target sample count above 0 and a positive step (`targetSamples + gapSamples`). Configurations outside that are not modelled. In the source they behave as follows:
  - A step ≤ 0 loops forever at audio_data_processor.py:106 on any buffer that reaches the window path. With a target count ≤ 0, that is every non-empty buffer.
  - A target count of 0 with a positive gap ends. A non-empty buffer goes to the window path (:90 is false), every window `audio[pos:pos]` is empty, its energy is NaN and fails :114, so the call returns `[]`. The file is then recorded with no outputs.
  - A target count of 0 with an empty buffer raises in the normaliser (:100), and the file gets no record.
  - A negative target count with a positive step ends. `audio[pos:pos+T]` (:108) then counts from the end of the buffer, so the windows are not empty and can be kept.
- `sf.write` and `mkdir` (file I/O) are not modelled; every write is taken to succeed. A write that raised partway through a file would leave outputs without a record; the model does not cover that.
- `Text.Join` is plain concatenation with '/'. `pathlib` normalisation (repeated or trailing separators, '.') is not modelled. On Windows, `pathlib` joins with '\\', so the output paths written into the manifest at audio_data_processor.py:170-172 and :185 do not have the '/'-joined form the model gives them.
- `Text.Basename` splits on '/' only. On Windows, where the caller script runs, `os.path.basename` also splits on '\\' and after a drive letter.
- The manifest is a Dafny map, so the key order of the Python dict it stands for is not modelled. The ledger's key order is modelled.
- The `tqdm` progress bar, `processed_count`, and the printed messages (including the per-file error log) are display only.
- `segment_stats` and `processed_segments` are written but never read, so they have no behaviour to model.
- The mutable default `set()` argument of `__init__` is shared between instances. That is a Python aliasing quirk; the model takes the set by value.
- data_processing.py and helper.py are not part of this model. They hold JSON loading and saving, recursive directory listing, the command-line entry point, statistics printing and an ad-hoc report.
