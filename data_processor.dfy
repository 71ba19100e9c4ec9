/** The processor: the per-domain batcher that writes segments under a
    quota and keeps the ledger of processed source files, and the assembler
    that runs it over three domains for the calibration split and then for
    the evaluation split. */
module DataProcessor {
  import opened Text
  import opened Segmentation
  import Signal

  /** What the ledger keeps about one source file. */
  datatype Record = Record(fullPath: string, processedDatetime: string, processedFilenames: seq<string>)

  /** `self.processed_files`: a dictionary from basename to record, which
      (like every Python dict) remembers the order keys were inserted in. */
  datatype Ledger = Ledger(order: seq<string>, records: map<string, Record>) {
    ghost predicate Valid() {
      (forall i, j :: 0 <= i < j < |order| ==> order[i] != order[j]) &&
      (forall k :: k in records <==> k in order)
    }

    function Add(key: string, r: Record): (l: Ledger)
      requires Valid() && key !in records
      ensures l.Valid()
    {
      Ledger(order + [key], records[key := r])
    }
  }

  /** The name of output number `index` of a domain: `{domain}_{index:04d}.wav`. */
  function OutputName(domain: string, index: nat): string {
    domain + "_" + Pad4(index) + ".wav"
  }

  /** Reads the index back out of an output name. */
  function IndexOfName(domain: string, name: string): nat
    requires |domain| + 5 <= |name|
  {
    ParseDecimal(name[|domain| + 1 .. |name| - 4])
  }

  lemma OutputNameRoundTrip(domain: string, index: nat)
    ensures |domain| + 5 <= |OutputName(domain, index)|
    ensures IndexOfName(domain, OutputName(domain, index)) == index
  {
    var name := OutputName(domain, index);
    assert name[|domain| + 1 .. |name| - 4] == Pad4(index);
    Pad4RoundTrip(index);
  }

  /** Different indices give different names. */
  lemma OutputNamesDistinct(domain: string, i: nat, j: nat)
    requires i != j
    ensures OutputName(domain, i) != OutputName(domain, j)
  {
    OutputNameRoundTrip(domain, i);
    OutputNameRoundTrip(domain, j);
  }

  /** `output_dir/set_type/domain`. */
  function OutputDir(outputDir: string, setType: string, domain: string): string {
    Join(Join(outputDir, setType), domain)
  }

  /** The paths of the first `n` outputs of a (domain, split) bucket. */
  function OutputPaths(outputDir: string, setType: string, domain: string, n: nat): (ps: seq<string>)
    ensures |ps| == n
  {
    seq(n, i requires 0 <= i < n => Join(OutputDir(outputDir, setType, domain), OutputName(domain, i)))
  }

  /** The bucket's paths are pairwise different. */
  lemma OutputPathsDistinct(outputDir: string, setType: string, domain: string, n: nat, i: nat, j: nat)
    requires i < j < n
    ensures OutputPaths(outputDir, setType, domain, n)[i] != OutputPaths(outputDir, setType, domain, n)[j]
  {
    var dir := OutputDir(outputDir, setType, domain);
    var ps := OutputPaths(outputDir, setType, domain, n);
    OutputNamesDistinct(domain, i, j);
    assert ps[i][|dir| + 1..] == OutputName(domain, i);
    assert ps[j][|dir| + 1..] == OutputName(domain, j);
  }

  lemma OutputPathsSnoc(outputDir: string, setType: string, domain: string, n: nat)
    ensures OutputPaths(outputDir, setType, domain, n) + [Join(OutputDir(outputDir, setType, domain), OutputName(domain, n))]
         == OutputPaths(outputDir, setType, domain, n + 1)
  {
  }

  /** The names of outputs `from` up to (excluding) `to`. */
  function NameRange(domain: string, from: nat, to: nat): (ns: seq<string>)
    requires from <= to
    ensures |ns| == to - from
  {
    seq(to - from, i requires 0 <= i < to - from => OutputName(domain, from + i))
  }

  lemma NameRangeSnoc(domain: string, a: nat, b: nat)
    requires a <= b
    ensures NameRange(domain, a, b) + [OutputName(domain, b)] == NameRange(domain, a, b + 1)
  {
  }

  lemma NameRangeAppend(domain: string, a: nat, b: nat, c: nat)
    requires a <= b <= c
    ensures NameRange(domain, a, b) + NameRange(domain, b, c) == NameRange(domain, a, c)
  {
    var lhs := NameRange(domain, a, b) + NameRange(domain, b, c);
    forall i | 0 <= i < c - a
      ensures lhs[i] == NameRange(domain, a, c)[i]
    {
      if i >= b - a {
        assert lhs[i] == NameRange(domain, b, c)[i - (b - a)];
      }
    }
  }

  /** The manifest key of a (domain, split) bucket. */
  function SplitKey(domain: string, setType: string): string {
    domain + "_" + setType
  }

  /** `target_count`: the calibration quota for "calibration", the
      evaluation quota for any other split name. */
  function Quota(cfg: Config, setType: string): int {
    if setType == "calibration" then cfg.calibrationSamples else cfg.evalSamples
  }

  /** What a batch run reads but does not change: the configuration, the
      basenames done in earlier runs, the decoder and the wall clock
      (`clock(k)` is the time read when the processor makes its k-th record). */
  datatype Env = Env(
    cfg: Config,
    previouslyProcessed: set<string>,
    load: string -> LoadOutcome,
    clock: nat -> string)

  /** The state a batch run builds: outputs written so far, and the ledger. */
  datatype Tally = Tally(count: nat, ledger: Ledger)

  /** What one candidate file does to the run: `Stop` is the `break` at the
      loop head once the quota is met; `Next` carries the state on to the
      next candidate. */
  datatype Visit = Stop | Next(t: Tally)

  /** The decoder and the segmenter together, for one file. */
  function FileSegments(env: Env, file: string): Processed
    requires env.cfg.Valid()
  {
    SegmentsOf(env.cfg, env.load(file))
  }

  /** One iteration of the loop of `process_domain_files`: skip a basename
      done in an earlier run; stop once the quota is met; skip a basename
      already recorded; otherwise segment the file, write as many of its
      segments as the quota still allows and record the file, unless
      segmenting raised. */
  function VisitFile(env: Env, domain: string, setType: string, file: string, t: Tally): Visit
    requires env.cfg.Valid() && t.ledger.Valid()
  {
    var name := Basename(file);
    var quota := Quota(env.cfg, setType);
    if name in env.previouslyProcessed then Next(t)
    else if t.count >= quota then Stop
    else if name in t.ledger.records then Next(t)
    else match FileSegments(env, file)
      case Raised => Next(t)
      case Segments(segs) =>
        var taken := if |segs| < quota - t.count then |segs| else quota - t.count;
        var rec := Record(file, env.clock(|t.ledger.order|), NameRange(domain, t.count, t.count + taken));
        Next(Tally(t.count + taken, t.ledger.Add(name, rec)))
  }

  /** What one iteration can do: stop only at a met quota; otherwise either
      leave the state alone, or write outputs up to the quota and add one
      record, keyed by the file's basename, that lists exactly those
      outputs' names. */
  lemma VisitEffect(env: Env, domain: string, setType: string, file: string, t: Tally)
    requires env.cfg.Valid() && t.ledger.Valid()
    ensures VisitFile(env, domain, setType, file, t).Stop? ==>
      Basename(file) !in env.previouslyProcessed && t.count >= Quota(env.cfg, setType)
    ensures VisitFile(env, domain, setType, file, t).Next? ==>
      var t' := VisitFile(env, domain, setType, file, t).t;
      var name := Basename(file);
      t' == t ||
      (name !in env.previouslyProcessed && name !in t.ledger.records &&
       t.count <= t'.count <= Quota(env.cfg, setType) &&
       t'.ledger == t.ledger.Add(name, Record(file, env.clock(|t.ledger.order|), NameRange(domain, t.count, t'.count))))
  {
    var name := Basename(file);
    var quota := Quota(env.cfg, setType);
    var v := VisitFile(env, domain, setType, file, t);
    if name in env.previouslyProcessed {
      assert v == Next(t);
    } else if t.count >= quota {
      assert v == Stop;
    } else if name in t.ledger.records {
      assert v == Next(t);
    } else if FileSegments(env, file).Raised? {
      assert v == Next(t);
    } else {
      var segs := FileSegments(env, file).segments;
      var n := if |segs| < quota - t.count then t.count + |segs| else quota;
      VisitWrites(env, domain, setType, file, t, segs, n);
    }
  }

  /** A new file, met below the quota, whose segmenting succeeds: `n` is
      where the count ends once the segments or the quota run out. */
  lemma VisitWrites(env: Env, domain: string, setType: string, file: string, t: Tally, segs: seq<Segment>, n: nat)
    requires env.cfg.Valid() && t.ledger.Valid()
    requires Basename(file) !in env.previouslyProcessed && Basename(file) !in t.ledger.records
    requires t.count < Quota(env.cfg, setType) && FileSegments(env, file) == Segments(segs)
    requires t.count <= n <= t.count + |segs| && n <= Quota(env.cfg, setType)
    requires n == t.count + |segs| || n == Quota(env.cfg, setType)
    ensures VisitFile(env, domain, setType, file, t)
         == Next(Tally(n, t.ledger.Add(Basename(file), Record(file, env.clock(|t.ledger.order|), NameRange(domain, t.count, n)))))
  {
    var quota := Quota(env.cfg, setType);
    var taken := if |segs| < quota - t.count then |segs| else quota - t.count;
    assert t.count + taken == n;
    var rec := Record(file, env.clock(|t.ledger.order|), NameRange(domain, t.count, t.count + taken));
    assert VisitFile(env, domain, setType, file, t) == Next(Tally(t.count + taken, t.ledger.Add(Basename(file), rec)));
  }

  /** A file whose basename is done or recorded, or whose segmenting
      raises, writes nothing and gets no record. */
  lemma VisitSkips(env: Env, domain: string, setType: string, file: string, t: Tally)
    requires env.cfg.Valid() && t.ledger.Valid()
    requires Basename(file) in env.previouslyProcessed || Basename(file) in t.ledger.records ||
             FileSegments(env, file) == Raised
    ensures VisitFile(env, domain, setType, file, t) in {Stop, Next(t)}
  {
  }

  /** `process_domain_files` from candidate `i` on, as a function. */
  function Batch(env: Env, domain: string, setType: string, files: seq<string>, i: nat, t: Tally): (r: Tally)
    requires env.cfg.Valid() && i <= |files| && t.ledger.Valid()
    ensures r.ledger.Valid()
    decreases |files| - i
  {
    if i == |files| then t
    else match VisitFile(env, domain, setType, files[i], t)
      case Stop => t
      case Next(t') => Batch(env, domain, setType, files, i + 1, t')
  }

  /** Once the quota is met at the loop head, no further file is loaded or
      recorded. */
  lemma {:induction false} BatchQuotaFull(env: Env, domain: string, setType: string, files: seq<string>, i: nat, t: Tally)
    requires env.cfg.Valid() && i <= |files| && t.ledger.Valid()
    requires t.count >= Quota(env.cfg, setType)
    ensures Batch(env, domain, setType, files, i, t) == t
    decreases |files| - i
  {
    if i < |files| && Basename(files[i]) in env.previouslyProcessed {
      BatchQuotaFull(env, domain, setType, files, i + 1, t);
    }
  }

  /** The output count only grows, and it never passes the quota unless it
      started above it (in which case nothing is written). */
  lemma {:induction false} BatchCount(env: Env, domain: string, setType: string, files: seq<string>, i: nat, t: Tally)
    requires env.cfg.Valid() && i <= |files| && t.ledger.Valid()
    ensures var r := Batch(env, domain, setType, files, i, t);
      t.count <= r.count && (r.count == t.count || r.count <= Quota(env.cfg, setType))
    decreases |files| - i
  {
    if i < |files| {
      VisitEffect(env, domain, setType, files[i], t);
      match VisitFile(env, domain, setType, files[i], t)
      case Stop =>
      case Next(t') =>
        BatchCount(env, domain, setType, files, i + 1, t');
    }
  }

  /** `l` is a prefix of `l'`: existing records kept, new keys appended. */
  ghost predicate Extends(l: Ledger, l': Ledger) {
    |l.order| <= |l'.order| && l'.order[..|l.order|] == l.order &&
    forall k :: k in l.records ==> k in l'.records && l'.records[k] == l.records[k]
  }

  lemma ExtendsTrans(a: Ledger, b: Ledger, c: Ledger)
    requires Extends(a, b) && Extends(b, c)
    ensures Extends(a, c)
  {
    assert c.order[..|a.order|] == c.order[..|b.order|][..|a.order|];
  }

  /** `l'` extends `l`, and every key it adds was not done in an earlier
      run and belongs to a record for one of `files` with that basename. */
  ghost predicate GrowsBy(prev: set<string>, files: seq<string>, l: Ledger, l': Ledger) {
    l'.Valid() && Extends(l, l') &&
    forall j :: |l.order| <= j < |l'.order| ==>
      l'.order[j] !in prev && l'.records[l'.order[j]].fullPath in files &&
      Basename(l'.records[l'.order[j]].fullPath) == l'.order[j]
  }

  /** One more record, for `file`, in front of a run's growth. */
  lemma GrowsByStep(prev: set<string>, file: string, files: seq<string>, l: Ledger, rec: Record, l': Ledger)
    requires l.Valid() && Basename(file) !in prev && Basename(file) !in l.records && rec.fullPath == file
    requires GrowsBy(prev, files, l.Add(Basename(file), rec), l')
    ensures GrowsBy(prev, [file] + files, l, l')
  {
    var m := l.Add(Basename(file), rec);
    ExtendsTrans(l, m, l');
    var n := |l.order|;
    assert l'.order[n] == m.order[n] == Basename(file);
    assert l'.records[Basename(file)] == rec;
  }

  /** A run's growth still holds with more candidate files. */
  lemma GrowsByMore(prev: set<string>, file: string, files: seq<string>, l: Ledger, l': Ledger)
    requires GrowsBy(prev, files, l, l')
    ensures GrowsBy(prev, [file] + files, l, l')
  {
  }

  /** The ledger only grows at its end: existing records are never
      overwritten, and every new record belongs to a candidate file (from
      `i` on) whose basename is its key and was not done in an earlier run. */
  lemma {:induction false} BatchLedger(env: Env, domain: string, setType: string, files: seq<string>, i: nat, t: Tally)
    requires env.cfg.Valid() && i <= |files| && t.ledger.Valid()
    ensures var r := Batch(env, domain, setType, files, i, t);
      Extends(t.ledger, r.ledger) &&
      (forall j :: |t.ledger.order| <= j < |r.ledger.order| ==>
        r.ledger.order[j] !in env.previouslyProcessed &&
        r.ledger.records[r.ledger.order[j]].fullPath in files[i..] &&
        Basename(r.ledger.records[r.ledger.order[j]].fullPath) == r.ledger.order[j])
    decreases |files| - i
  {
    var r := Batch(env, domain, setType, files, i, t);
    if i == |files| || VisitFile(env, domain, setType, files[i], t).Stop? {
      assert r == t;
      assert GrowsBy(env.previouslyProcessed, files[i..], t.ledger, r.ledger);
    } else {
      var t' := VisitFile(env, domain, setType, files[i], t).t;
      assert r == Batch(env, domain, setType, files, i + 1, t');
      assert files[i..] == [files[i]] + files[i + 1..];
      assert GrowsBy(env.previouslyProcessed, files[i + 1..], t'.ledger, r.ledger) by {
        BatchLedger(env, domain, setType, files, i + 1, t');
      }
      VisitEffect(env, domain, setType, files[i], t);
      if t' == t {
        GrowsByMore(env.previouslyProcessed, files[i], files[i + 1..], t.ledger, r.ledger);
      } else {
        var name := Basename(files[i]);
        GrowsByStep(env.previouslyProcessed, files[i], files[i + 1..], t.ledger, t'.ledger.records[name], r.ledger);
      }
      assert GrowsBy(env.previouslyProcessed, files[i..], t.ledger, r.ledger);
    }
  }

  /** The concatenated names of the given ledger entries. */
  function Flatten(l: Ledger, keys: seq<string>): seq<string>
    requires forall k :: k in keys ==> k in l.records
  {
    if keys == [] then [] else l.records[keys[0]].processedFilenames + Flatten(l, keys[1..])
  }

  /** From `t` to `r`, the added records list the names of outputs
      `t.count` up to `r.count`, in order. */
  ghost predicate WritesNames(domain: string, t: Tally, r: Tally)
    requires r.ledger.Valid()
  {
    |t.ledger.order| <= |r.ledger.order| && t.count <= r.count &&
    Flatten(r.ledger, r.ledger.order[|t.ledger.order|..]) == NameRange(domain, t.count, r.count)
  }

  lemma WritesNamesStep(domain: string, t: Tally, name: string, rec: Record, t': Tally, r: Tally)
    requires t.ledger.Valid() && name !in t.ledger.records && r.ledger.Valid()
    requires t.count <= t'.count && rec.processedFilenames == NameRange(domain, t.count, t'.count)
    requires t'.ledger == t.ledger.Add(name, rec)
    requires Extends(t'.ledger, r.ledger) && WritesNames(domain, t', r)
    ensures WritesNames(domain, t, r)
  {
    FlattenStep(t.ledger, name, rec, r.ledger);
    NameRangeAppend(domain, t.count, t'.count, r.count);
  }

  /** The records a run adds, read in insertion order, list exactly the
      output names the run wrote, in order. */
  lemma {:induction false} BatchRecords(env: Env, domain: string, setType: string, files: seq<string>, i: nat, t: Tally)
    requires env.cfg.Valid() && i <= |files| && t.ledger.Valid()
    ensures var r := Batch(env, domain, setType, files, i, t);
      |t.ledger.order| <= |r.ledger.order| && t.count <= r.count &&
      Flatten(r.ledger, r.ledger.order[|t.ledger.order|..]) == NameRange(domain, t.count, r.count)
    decreases |files| - i
  {
    var r := Batch(env, domain, setType, files, i, t);
    var n := |t.ledger.order|;
    if i == |files| || VisitFile(env, domain, setType, files[i], t).Stop? {
      assert r.ledger.order[n..] == [];
    } else {
      var t' := VisitFile(env, domain, setType, files[i], t).t;
      assert WritesNames(domain, t', Batch(env, domain, setType, files, i + 1, t')) by {
        BatchRecords(env, domain, setType, files, i + 1, t');
      }
      BatchWritesStep(env, domain, setType, files, i, t);
    }
  }

  /** One candidate in front of a run whose records list its outputs. */
  lemma BatchWritesStep(env: Env, domain: string, setType: string, files: seq<string>, i: nat, t: Tally)
    requires env.cfg.Valid() && i < |files| && t.ledger.Valid()
    requires VisitFile(env, domain, setType, files[i], t).Next?
    requires var t' := VisitFile(env, domain, setType, files[i], t).t;
      WritesNames(domain, t', Batch(env, domain, setType, files, i + 1, t'))
    ensures WritesNames(domain, t, Batch(env, domain, setType, files, i, t))
  {
    var t' := VisitFile(env, domain, setType, files[i], t).t;
    var r := Batch(env, domain, setType, files, i + 1, t');
    BatchNext(env, domain, setType, files, i, t, t');
    VisitEffect(env, domain, setType, files[i], t);
    if t' != t {
      assert Extends(t'.ledger, r.ledger) by {
        BatchLedger(env, domain, setType, files, i + 1, t');
      }
      var name := Basename(files[i]);
      WritesNamesStep(domain, t, name, t'.ledger.records[name], t', r);
    }
  }

  /** Flattening the keys added by one step and then by a run splits into
      the step's record followed by the run's records. */
  lemma FlattenStep(l: Ledger, name: string, rec: Record, r: Ledger)
    requires l.Valid() && name !in l.records && r.Valid()
    requires Extends(l.Add(name, rec), r)
    ensures |l.order| < |r.order|
    ensures Flatten(r, r.order[|l.order|..]) == rec.processedFilenames + Flatten(r, r.order[|l.order| + 1..])
  {
    var n := |l.order|;
    assert r.order[n] == l.Add(name, rec).order[n] == name;
    assert r.order[n..][1..] == r.order[n + 1..];
  }

  /** A candidate that lets the loop go on hands its state to the next. */
  lemma BatchNext(env: Env, domain: string, setType: string, files: seq<string>, i: nat, t: Tally, t': Tally)
    requires env.cfg.Valid() && i < |files| && t.ledger.Valid()
    requires VisitFile(env, domain, setType, files[i], t) == Next(t')
    ensures t'.ledger.Valid()
    ensures Batch(env, domain, setType, files, i, t) == Batch(env, domain, setType, files, i + 1, t')
  {
  }

  /** Three new files that each give one segment, against a calibration
      quota of two: the first two are written as outputs 0 and 1 and
      recorded; the third is met at the loop head with the quota full, so
      it is neither loaded nor recorded. */
  lemma ThirdFileAfterFullQuota(env: Env, a: string, b: string, c: string, clip: seq<real>, sr: int)
    requires env.cfg.Valid() && env.cfg.calibrationSamples == 2
    requires |clip| < env.cfg.targetSamples && Signal.Energetic(clip)
    requires forall f :: env.load(f) == Decoded(clip, sr)
    requires Basename(a) != Basename(b)
    requires Basename(a) !in env.previouslyProcessed && Basename(b) !in env.previouslyProcessed
    requires Basename(c) !in env.previouslyProcessed
    ensures var r := Batch(env, "music", "calibration", [a, b, c], 0, Tally(0, Ledger([], map[])));
      r.count == 2 && r.ledger.order == [Basename(a), Basename(b)] &&
      r.ledger.records[Basename(a)].processedFilenames == [OutputName("music", 0)] &&
      r.ledger.records[Basename(b)].processedFilenames == [OutputName("music", 1)] &&
      (Basename(c) != Basename(a) && Basename(c) != Basename(b) ==> Basename(c) !in r.ledger.records)
  {
    ThreeFileRun(env, a, b, c, clip, sr);
    assert NameRange("music", 0, 1) == [OutputName("music", 0)];
    assert NameRange("music", 1, 2) == [OutputName("music", 1)];
  }

  /** The run of `ThirdFileAfterFullQuota`, step by step. */
  lemma ThreeFileRun(env: Env, a: string, b: string, c: string, clip: seq<real>, sr: int)
    requires env.cfg.Valid() && env.cfg.calibrationSamples == 2
    requires |clip| < env.cfg.targetSamples && Signal.Energetic(clip)
    requires forall f :: env.load(f) == Decoded(clip, sr)
    requires Basename(a) != Basename(b)
    requires Basename(a) !in env.previouslyProcessed && Basename(b) !in env.previouslyProcessed
    requires Basename(c) !in env.previouslyProcessed
    ensures Batch(env, "music", "calibration", [a, b, c], 0, Tally(0, Ledger([], map[]))) ==
      Tally(2, Ledger([], map[])
        .Add(Basename(a), Record(a, env.clock(0), NameRange("music", 0, 1)))
        .Add(Basename(b), Record(b, env.clock(1), NameRange("music", 1, 2))))
  {
    var files := [a, b, c];
    var segs := [Segment(clip, sr)];
    var t0 := Tally(0, Ledger([], map[]));
    var t1 := Tally(1, t0.ledger.Add(Basename(a), Record(a, env.clock(0), NameRange("music", 0, 1))));
    var t2 := Tally(2, t1.ledger.Add(Basename(b), Record(b, env.clock(1), NameRange("music", 1, 2))));
    assert VisitFile(env, "music", "calibration", a, t0) == Next(t1) by {
      assert env.load(a) == Decoded(clip, sr);
      Segmentation.ShortClipFallback(env.cfg, clip, sr);
      VisitWrites(env, "music", "calibration", a, t0, segs, 1);
    }
    assert VisitFile(env, "music", "calibration", b, t1) == Next(t2) by {
      assert env.load(b) == Decoded(clip, sr);
      Segmentation.ShortClipFallback(env.cfg, clip, sr);
      VisitWrites(env, "music", "calibration", b, t1, segs, 2);
    }
    assert Batch(env, "music", "calibration", files, 2, t2) == t2 by {
      assert VisitFile(env, "music", "calibration", c, t2) == Stop;
    }
    BatchNext(env, "music", "calibration", files, 1, t1, t2);
    BatchNext(env, "music", "calibration", files, 0, t0, t1);
  }

  /** Running again over files whose basenames are all recorded (or done in
      an earlier run) writes nothing and changes no record. */
  lemma {:induction false} BatchRerun(env: Env, domain: string, setType: string, files: seq<string>, i: nat, t: Tally)
    requires env.cfg.Valid() && i <= |files| && t.ledger.Valid()
    requires forall m :: i <= m < |files| ==>
      Basename(files[m]) in env.previouslyProcessed || Basename(files[m]) in t.ledger.records
    ensures Batch(env, domain, setType, files, i, t) == t
    decreases |files| - i
  {
    if i < |files| {
      VisitSkips(env, domain, setType, files[i], t);
      if VisitFile(env, domain, setType, files[i], t).Next? {
        BatchRerun(env, domain, setType, files, i + 1, t);
      }
    }
  }

  /** One (domain, file list) pair of the assembler. */
  datatype Job = Job(domain: string, files: seq<string>)

  /** What the assembler builds: the manifest and the ledger. */
  datatype Progress = Progress(splits: map<string, seq<string>>, ledger: Ledger)

  /** The passes of one split over `jobs`, in order, each merging its
      bucket into the manifest. */
  function RunPasses(env: Env, outputDir: string, setType: string, jobs: seq<Job>, start: Progress): (p: Progress)
    requires env.cfg.Valid() && start.ledger.Valid()
    ensures p.ledger.Valid()
    decreases |jobs|
  {
    if jobs == [] then start
    else
      var before := RunPasses(env, outputDir, setType, jobs[..|jobs| - 1], start);
      var job := jobs[|jobs| - 1];
      var t := Batch(env, job.domain, setType, job.files, 0, Tally(0, before.ledger));
      Progress(before.splits + map[SplitKey(job.domain, setType) := OutputPaths(outputDir, setType, job.domain, t.count)],
               t.ledger)
  }

  function Jobs(speechFiles: seq<string>, musicFiles: seq<string>, envFiles: seq<string>): seq<Job> {
    [Job("speech", speechFiles), Job("music", musicFiles), Job("environmental", envFiles)]
  }

  /** The three calibration passes, from the given ledger. */
  function CalibrationPasses(env: Env, outputDir: string, speechFiles: seq<string>, musicFiles: seq<string>,
                             envFiles: seq<string>, ledger: Ledger): (p: Progress)
    requires env.cfg.Valid() && ledger.Valid()
    ensures p.ledger.Valid()
  {
    RunPasses(env, outputDir, "calibration", Jobs(speechFiles, musicFiles, envFiles), Progress(map[], ledger))
  }

  /** `create_dataset_splits` as a function: the three calibration passes,
      then the three evaluation passes, over one ledger. */
  function Assemble(env: Env, outputDir: string, speechFiles: seq<string>, musicFiles: seq<string>,
                    envFiles: seq<string>, ledger: Ledger): (p: Progress)
    requires env.cfg.Valid() && ledger.Valid()
    ensures p.ledger.Valid()
  {
    var calibration := CalibrationPasses(env, outputDir, speechFiles, musicFiles, envFiles, ledger);
    RunPasses(env, outputDir, "evaluation", Jobs(speechFiles, musicFiles, envFiles), calibration)
  }

  /** The manifest keys the passes over `jobs` write. */
  function KeysOf(jobs: seq<Job>, setType: string): set<string> {
    if jobs == [] then {} else KeysOf(jobs[..|jobs| - 1], setType) + {SplitKey(jobs[|jobs| - 1].domain, setType)}
  }

  lemma JobsKeys(speechFiles: seq<string>, musicFiles: seq<string>, envFiles: seq<string>, setType: string)
    ensures KeysOf(Jobs(speechFiles, musicFiles, envFiles), setType)
         == {SplitKey("speech", setType), SplitKey("music", setType), SplitKey("environmental", setType)}
  {
    var jobs := Jobs(speechFiles, musicFiles, envFiles);
    var two, one := jobs[..2], jobs[..2][..1];
    assert two == [jobs[0], jobs[1]] && one == [jobs[0]] && one[..0] == [];
    assert KeysOf(one, setType) == {SplitKey("speech", setType)};
    assert KeysOf(two, setType) == {SplitKey("speech", setType), SplitKey("music", setType)};
  }

  /** A bucket holds no more outputs than its quota (none when the quota
      is not positive). */
  predicate WithinQuota(paths: seq<string>, quota: int) {
    |paths| == 0 || |paths| <= quota
  }

  /** What the passes over `jobs` have done to `p`, starting from `start`:
      the ledger only grew, one bucket per job was added within the quota,
      and every other bucket is as it was. */
  ghost predicate PassesEffect(start: Progress, p: Progress, keys: set<string>, quota: int) {
    Extends(start.ledger, p.ledger) &&
    p.splits.Keys == start.splits.Keys + keys &&
    (forall key :: key in p.splits ==>
      if key in keys then WithinQuota(p.splits[key], quota) else p.splits[key] == start.splits[key])
  }

  /** One more pass keeps `PassesEffect`. */
  lemma PassesEffectStep(start: Progress, before: Progress, keys: set<string>, quota: int,
                         key: string, paths: seq<string>, ledger: Ledger)
    requires PassesEffect(start, before, keys, quota)
    requires Extends(before.ledger, ledger) && WithinQuota(paths, quota)
    ensures PassesEffect(start, Progress(before.splits + map[key := paths], ledger), keys + {key}, quota)
  {
    ExtendsTrans(start.ledger, before.ledger, ledger);
  }

  /** The passes of one split add one bucket per job, each within the
      split's quota, leave every other bucket alone, and only extend the
      ledger. */
  lemma {:induction false} RunPassesEffect(env: Env, outputDir: string, setType: string, jobs: seq<Job>, start: Progress)
    requires env.cfg.Valid() && start.ledger.Valid()
    ensures var p := RunPasses(env, outputDir, setType, jobs, start);
      Extends(start.ledger, p.ledger) &&
      p.splits.Keys == start.splits.Keys + KeysOf(jobs, setType) &&
      (forall key :: key in p.splits ==>
        if key in KeysOf(jobs, setType) then WithinQuota(p.splits[key], Quota(env.cfg, setType))
        else p.splits[key] == start.splits[key])
    decreases |jobs|
  {
    var p := RunPasses(env, outputDir, setType, jobs, start);
    var quota := Quota(env.cfg, setType);
    if jobs != [] {
      var init := jobs[..|jobs| - 1];
      var before := RunPasses(env, outputDir, setType, init, start);
      var job := jobs[|jobs| - 1];
      var t := Batch(env, job.domain, setType, job.files, 0, Tally(0, before.ledger));
      var paths := OutputPaths(outputDir, setType, job.domain, t.count);
      assert p == Progress(before.splits + map[SplitKey(job.domain, setType) := paths], t.ledger);
      assert KeysOf(jobs, setType) == KeysOf(init, setType) + {SplitKey(job.domain, setType)};
      assert PassesEffect(start, before, KeysOf(init, setType), quota) by {
        RunPassesEffect(env, outputDir, setType, init, start);
      }
      assert Extends(before.ledger, t.ledger) && WithinQuota(paths, quota) by {
        BatchLedger(env, job.domain, setType, job.files, 0, Tally(0, before.ledger));
        BatchCount(env, job.domain, setType, job.files, 0, Tally(0, before.ledger));
      }
      PassesEffectStep(start, before, KeysOf(init, setType), quota, SplitKey(job.domain, setType), paths, t.ledger);
      assert PassesEffect(start, p, KeysOf(jobs, setType), quota);
    }
  }

  /** A bucket the passes write is within the split's quota. */
  lemma PassBucketWithin(env: Env, outputDir: string, setType: string, jobs: seq<Job>, start: Progress, key: string)
    requires env.cfg.Valid() && start.ledger.Valid() && key in KeysOf(jobs, setType)
    ensures var p := RunPasses(env, outputDir, setType, jobs, start);
      key in p.splits && WithinQuota(p.splits[key], Quota(env.cfg, setType))
  {
    RunPassesEffect(env, outputDir, setType, jobs, start);
  }

  /** A bucket the passes do not write keeps its paths. */
  lemma PassBucketKept(env: Env, outputDir: string, setType: string, jobs: seq<Job>, start: Progress, key: string)
    requires env.cfg.Valid() && start.ledger.Valid() && key in start.splits && key !in KeysOf(jobs, setType)
    ensures var p := RunPasses(env, outputDir, setType, jobs, start);
      key in p.splits && p.splits[key] == start.splits[key]
  {
    RunPassesEffect(env, outputDir, setType, jobs, start);
  }

  /** The jobs are for different domains. */
  predicate DistinctDomains(jobs: seq<Job>) {
    forall a, b :: 0 <= a < b < |jobs| ==> jobs[a].domain != jobs[b].domain
  }

  /** Different domains of one split have different manifest keys. */
  lemma SplitKeysDistinct(d: string, e: string, setType: string)
    requires d != e
    ensures SplitKey(d, setType) != SplitKey(e, setType)
  {
    if |d| == |e| {
      assert SplitKey(d, setType)[..|d|] == d;
      assert SplitKey(e, setType)[..|e|] == e;
    }
  }

  lemma {:induction false} KeysOfHas(jobs: seq<Job>, setType: string)
    ensures forall j :: j in jobs ==> SplitKey(j.domain, setType) in KeysOf(jobs, setType)
  {
    if jobs != [] {
      var init := jobs[..|jobs| - 1];
      KeysOfHas(init, setType);
      assert forall j :: j in jobs ==> j in init || j == jobs[|jobs| - 1];
    }
  }

  /** The output names of the buckets of `jobs`, job after job, each bucket
      as long as the manifest `splits` has it. */
  function BucketNames(jobs: seq<Job>, setType: string, splits: map<string, seq<string>>): seq<string>
    requires forall j :: j in jobs ==> SplitKey(j.domain, setType) in splits
  {
    if jobs == [] then []
    else
      var job := jobs[|jobs| - 1];
      assert forall j :: j in jobs[..|jobs| - 1] ==> j in jobs;
      BucketNames(jobs[..|jobs| - 1], setType, splits) + NameRange(job.domain, 0, |splits[SplitKey(job.domain, setType)]|)
  }

  lemma {:induction false} BucketNamesFrame(jobs: seq<Job>, setType: string, s: map<string, seq<string>>,
                                            s': map<string, seq<string>>)
    requires forall j :: j in jobs ==>
      SplitKey(j.domain, setType) in s && SplitKey(j.domain, setType) in s' &&
      s'[SplitKey(j.domain, setType)] == s[SplitKey(j.domain, setType)]
    ensures BucketNames(jobs, setType, s) == BucketNames(jobs, setType, s')
  {
    if jobs != [] {
      var init := jobs[..|jobs| - 1];
      assert forall j :: j in init ==> j in jobs;
      BucketNamesFrame(init, setType, s, s');
    }
  }

  lemma {:induction false} FlattenAppend(l: Ledger, a: seq<string>, b: seq<string>)
    requires forall k :: k in a + b ==> k in l.records
    ensures Flatten(l, a + b) == Flatten(l, a) + Flatten(l, b)
  {
    if a == [] {
      assert a + b == b;
    } else {
      assert (a + b)[0] == a[0] && (a + b)[1..] == a[1..] + b;
      FlattenAppend(l, a[1..], b);
    }
  }

  lemma {:induction false} FlattenExtends(l: Ledger, l': Ledger, keys: seq<string>)
    requires Extends(l, l') && forall k :: k in keys ==> k in l.records
    ensures Flatten(l', keys) == Flatten(l, keys)
  {
    if keys != [] {
      FlattenExtends(l, l', keys[1..]);
    }
  }

  /** Adding the bucket of one more job (for a new domain) appends its names
      and leaves the earlier buckets' names alone. */
  lemma BucketNamesSnoc(setType: string, jobs: seq<Job>, s: map<string, seq<string>>, paths: seq<string>)
    requires jobs != []
    requires forall j :: j in jobs[..|jobs| - 1] ==>
      SplitKey(j.domain, setType) in s && j.domain != jobs[|jobs| - 1].domain
    ensures var s' := s + map[SplitKey(jobs[|jobs| - 1].domain, setType) := paths];
      (forall j :: j in jobs ==> SplitKey(j.domain, setType) in s') &&
      BucketNames(jobs, setType, s') ==
        BucketNames(jobs[..|jobs| - 1], setType, s) + NameRange(jobs[|jobs| - 1].domain, 0, |paths|)
  {
    var init := jobs[..|jobs| - 1];
    var job := jobs[|jobs| - 1];
    var s' := s + map[SplitKey(job.domain, setType) := paths];
    assert forall j :: j in jobs ==> SplitKey(j.domain, setType) in s' by {
      forall j | j in jobs
        ensures SplitKey(j.domain, setType) in s'
      {
        var a :| 0 <= a < |jobs| && jobs[a] == j;
        if a < |init| {
          assert init[a] == j;
        }
      }
    }
    assert BucketNames(init, setType, s) == BucketNames(init, setType, s') by {
      forall j | j in init
        ensures SplitKey(j.domain, setType) in s' && s'[SplitKey(j.domain, setType)] == s[SplitKey(j.domain, setType)]
      {
        SplitKeysDistinct(j.domain, job.domain, setType);
      }
      BucketNamesFrame(init, setType, s, s');
    }
  }

  /** Flattening the keys a ledger gained since position `n0` splits at the
      length of an earlier ledger it extends. */
  lemma FlattenSplit(l: Ledger, l': Ledger, n0: nat)
    requires l.Valid() && l'.Valid() && Extends(l, l') && n0 <= |l.order|
    ensures Flatten(l', l'.order[n0..]) == Flatten(l, l.order[n0..]) + Flatten(l', l'.order[|l.order|..])
  {
    var nb := |l.order|;
    assert l'.order[n0..] == l.order[n0..] + l'.order[nb..];
    FlattenAppend(l', l.order[n0..], l'.order[nb..]);
    FlattenExtends(l, l', l.order[n0..]);
  }

  /** The records the passes of one split add, read in insertion order, list
      exactly the output names of that split's buckets, job after job: every
      output of the split is listed by a record added in that split. */
  lemma {:induction false} RunPassesRecords(env: Env, outputDir: string, setType: string, jobs: seq<Job>, start: Progress)
    requires env.cfg.Valid() && start.ledger.Valid() && DistinctDomains(jobs)
    ensures var p := RunPasses(env, outputDir, setType, jobs, start);
      |start.ledger.order| <= |p.ledger.order| &&
      (forall j :: j in jobs ==> SplitKey(j.domain, setType) in p.splits) &&
      Flatten(p.ledger, p.ledger.order[|start.ledger.order|..]) == BucketNames(jobs, setType, p.splits)
    decreases |jobs|
  {
    var p := RunPasses(env, outputDir, setType, jobs, start);
    if jobs == [] {
      assert p.ledger.order[|start.ledger.order|..] == [];
    } else {
      var init := jobs[..|jobs| - 1];
      var job := jobs[|jobs| - 1];
      var before := RunPasses(env, outputDir, setType, init, start);
      var t := Batch(env, job.domain, setType, job.files, 0, Tally(0, before.ledger));
      var paths := OutputPaths(outputDir, setType, job.domain, t.count);
      var n0 := |start.ledger.order|;
      assert p == Progress(before.splits + map[SplitKey(job.domain, setType) := paths], t.ledger);
      assert init + [job] == jobs;
      assert DistinctDomains(init) && forall j :: j in init ==> j.domain != job.domain by {
        forall j | j in init
          ensures j.domain != job.domain
        {
          var a :| 0 <= a < |init| && init[a] == j;
          assert jobs[a] == j;
        }
      }
      RunPassesRecords(env, outputDir, setType, init, start);
      assert Extends(before.ledger, t.ledger) &&
             Flatten(t.ledger, t.ledger.order[|before.ledger.order|..]) == NameRange(job.domain, 0, |paths|) by {
        BatchRecords(env, job.domain, setType, job.files, 0, Tally(0, before.ledger));
        BatchLedger(env, job.domain, setType, job.files, 0, Tally(0, before.ledger));
      }
      assert Flatten(t.ledger, t.ledger.order[n0..]) ==
             Flatten(before.ledger, before.ledger.order[n0..]) + NameRange(job.domain, 0, |paths|) by {
        FlattenSplit(before.ledger, t.ledger, n0);
      }
      BucketNamesSnoc(setType, jobs, before.splits, paths);
    }
  }

  /** What `AssembleSeparatesSplits` needs from the passes of one split. */
  lemma SplitPassFacts(env: Env, outputDir: string, setType: string, jobs: seq<Job>, start: Progress)
    requires env.cfg.Valid() && start.ledger.Valid() && DistinctDomains(jobs)
    ensures var p := RunPasses(env, outputDir, setType, jobs, start);
      Extends(start.ledger, p.ledger) &&
      (forall j :: j in jobs ==> SplitKey(j.domain, setType) in p.splits) &&
      Flatten(p.ledger, p.ledger.order[|start.ledger.order|..]) == BucketNames(jobs, setType, p.splits)
  {
    RunPassesEffect(env, outputDir, setType, jobs, start);
    RunPassesRecords(env, outputDir, setType, jobs, start);
  }

  /** Keys added to a valid ledger are not among its earlier keys. */
  lemma NewKeysFresh(l: Ledger, l': Ledger)
    requires l.Valid() && l'.Valid() && Extends(l, l')
    ensures forall k :: k in l'.order[|l.order|..] ==> k !in l.records
  {
    var n := |l.order|;
    forall k | k in l'.order[n..]
      ensures k !in l.records
    {
      var b' :| 0 <= b' < |l'.order| - n && l'.order[n..][b'] == k;
      var b := n + b';
      assert forall a :: 0 <= a < n ==> l.order[a] == l'.order[a] != l'.order[b];
    }
  }

  /** The evaluation passes leave the calibration buckets as they were. */
  lemma EvaluationKeepsCalibration(env: Env, outputDir: string, jobs: seq<Job>, calibration: Progress)
    requires env.cfg.Valid() && calibration.ledger.Valid()
    requires KeysOf(jobs, "evaluation") <= {SplitKey("speech", "evaluation"), SplitKey("music", "evaluation"),
                                            SplitKey("environmental", "evaluation")}
    requires forall j :: j in jobs ==> SplitKey(j.domain, "calibration") in calibration.splits
    ensures var p := RunPasses(env, outputDir, "evaluation", jobs, calibration);
      forall j :: j in jobs ==>
        (SplitKey(j.domain, "calibration") in p.splits &&
         p.splits[SplitKey(j.domain, "calibration")] == calibration.splits[SplitKey(j.domain, "calibration")])
  {
    var p := RunPasses(env, outputDir, "evaluation", jobs, calibration);
    forall j | j in jobs
      ensures SplitKey(j.domain, "calibration") in p.splits
      ensures p.splits[SplitKey(j.domain, "calibration")] == calibration.splits[SplitKey(j.domain, "calibration")]
    {
      assert SplitKey(j.domain, "calibration") !in KeysOf(jobs, "evaluation") by {
        SplitKeysDiffer(j.domain, "speech");
        SplitKeysDiffer(j.domain, "music");
        SplitKeysDiffer(j.domain, "environmental");
      }
      PassBucketKept(env, outputDir, "evaluation", jobs, calibration, SplitKey(j.domain, "calibration"));
    }
  }

  /** The manifest has exactly the six (domain, split) buckets. */
  lemma AssembleKeys(env: Env, outputDir: string, speechFiles: seq<string>, musicFiles: seq<string>,
                     envFiles: seq<string>, ledger: Ledger)
    requires env.cfg.Valid() && ledger.Valid()
    ensures Assemble(env, outputDir, speechFiles, musicFiles, envFiles, ledger).splits.Keys
         == {SplitKey("speech", "calibration"), SplitKey("music", "calibration"), SplitKey("environmental", "calibration"),
             SplitKey("speech", "evaluation"), SplitKey("music", "evaluation"), SplitKey("environmental", "evaluation")}
  {
    var jobs := Jobs(speechFiles, musicFiles, envFiles);
    JobsKeys(speechFiles, musicFiles, envFiles, "calibration");
    JobsKeys(speechFiles, musicFiles, envFiles, "evaluation");
    var calibration := CalibrationPasses(env, outputDir, speechFiles, musicFiles, envFiles, ledger);
    RunPassesEffect(env, outputDir, "calibration", jobs, Progress(map[], ledger));
    RunPassesEffect(env, outputDir, "evaluation", jobs, calibration);
  }

  /** No calibration bucket shares its key with an evaluation bucket. */
  lemma SplitKeysDiffer(d: string, e: string)
    ensures SplitKey(d, "calibration") != SplitKey(e, "evaluation")
  {
    var c, v := SplitKey(d, "calibration"), SplitKey(e, "evaluation");
    if |c| == |v| {
      assert c[|c| - 11] == 'c' && v[|v| - 11] == '_';
    }
  }

  /** Each domain's calibration bucket is within the calibration quota and
      its evaluation bucket within the evaluation quota: the count restarts
      at zero for every (domain, split) pass. */
  lemma AssembleQuotas(env: Env, outputDir: string, speechFiles: seq<string>, musicFiles: seq<string>,
                       envFiles: seq<string>, ledger: Ledger, domain: string)
    requires env.cfg.Valid() && ledger.Valid()
    requires domain in {"speech", "music", "environmental"}
    ensures var p := Assemble(env, outputDir, speechFiles, musicFiles, envFiles, ledger);
      SplitKey(domain, "calibration") in p.splits && SplitKey(domain, "evaluation") in p.splits &&
      WithinQuota(p.splits[SplitKey(domain, "calibration")], env.cfg.calibrationSamples) &&
      WithinQuota(p.splits[SplitKey(domain, "evaluation")], env.cfg.evalSamples)
  {
    var jobs := Jobs(speechFiles, musicFiles, envFiles);
    var calibration := CalibrationPasses(env, outputDir, speechFiles, musicFiles, envFiles, ledger);
    var p := Assemble(env, outputDir, speechFiles, musicFiles, envFiles, ledger);
    var ck, ek := SplitKey(domain, "calibration"), SplitKey(domain, "evaluation");
    assert ck in KeysOf(jobs, "calibration") && ek in KeysOf(jobs, "evaluation") &&
           ck !in KeysOf(jobs, "evaluation") by {
      JobsKeys(speechFiles, musicFiles, envFiles, "calibration");
      JobsKeys(speechFiles, musicFiles, envFiles, "evaluation");
      SplitKeysDiffer(domain, "speech");
      SplitKeysDiffer(domain, "music");
      SplitKeysDiffer(domain, "environmental");
    }
    assert ck in calibration.splits && WithinQuota(calibration.splits[ck], env.cfg.calibrationSamples) by {
      PassBucketWithin(env, outputDir, "calibration", jobs, Progress(map[], ledger), ck);
    }
    assert ck in p.splits && p.splits[ck] == calibration.splits[ck] by {
      PassBucketKept(env, outputDir, "evaluation", jobs, calibration, ck);
    }
    assert ek in p.splits && WithinQuota(p.splits[ek], env.cfg.evalSamples) by {
      PassBucketWithin(env, outputDir, "evaluation", jobs, calibration, ek);
    }
  }

  /** No source file contributes outputs to both splits. The records added
      by the calibration passes list exactly the calibration buckets' output
      names, those added by the evaluation passes list exactly the evaluation
      buckets' names, and no basename is among both: the ledger is not
      cleared between the splits, so a file recorded in calibration is
      skipped in evaluation. */
  lemma AssembleSeparatesSplits(env: Env, outputDir: string, speechFiles: seq<string>, musicFiles: seq<string>,
                                envFiles: seq<string>, ledger: Ledger)
    requires env.cfg.Valid() && ledger.Valid()
    ensures var jobs := Jobs(speechFiles, musicFiles, envFiles);
      var calibration := CalibrationPasses(env, outputDir, speechFiles, musicFiles, envFiles, ledger);
      var p := Assemble(env, outputDir, speechFiles, musicFiles, envFiles, ledger);
      var n0, nc := |ledger.order|, |calibration.ledger.order|;
      Extends(ledger, calibration.ledger) && Extends(calibration.ledger, p.ledger) &&
      (forall j :: j in jobs ==>
        SplitKey(j.domain, "calibration") in p.splits && SplitKey(j.domain, "evaluation") in p.splits) &&
      Flatten(p.ledger, p.ledger.order[n0..nc]) == BucketNames(jobs, "calibration", p.splits) &&
      Flatten(p.ledger, p.ledger.order[nc..]) == BucketNames(jobs, "evaluation", p.splits) &&
      (forall k :: k in p.ledger.order[nc..] ==> k !in calibration.ledger.records)
  {
    var jobs := Jobs(speechFiles, musicFiles, envFiles);
    var calibration := CalibrationPasses(env, outputDir, speechFiles, musicFiles, envFiles, ledger);
    var p := Assemble(env, outputDir, speechFiles, musicFiles, envFiles, ledger);
    var n0, nc := |ledger.order|, |calibration.ledger.order|;
    assert DistinctDomains(jobs);
    SplitPassFacts(env, outputDir, "calibration", jobs, Progress(map[], ledger));
    SplitPassFacts(env, outputDir, "evaluation", jobs, calibration);
    assert BucketNames(jobs, "calibration", calibration.splits) == BucketNames(jobs, "calibration", p.splits) by {
      JobsKeys(speechFiles, musicFiles, envFiles, "evaluation");
      EvaluationKeepsCalibration(env, outputDir, jobs, calibration);
      BucketNamesFrame(jobs, "calibration", calibration.splits, p.splits);
    }
    assert Flatten(p.ledger, p.ledger.order[n0..nc]) == Flatten(calibration.ledger, calibration.ledger.order[n0..]) by {
      assert p.ledger.order[n0..nc] == calibration.ledger.order[n0..];
      FlattenExtends(calibration.ledger, p.ledger, calibration.ledger.order[n0..]);
    }
    assert forall k :: k in p.ledger.order[nc..] ==> k !in calibration.ledger.records by {
      NewKeysFresh(calibration.ledger, p.ledger);
    }
  }

  class AudioDataProcessor {
    const cfg: Config
    const previouslyProcessed: set<string>
    var processedFiles: Ledger

    ghost predicate Valid()
      reads this
    {
      cfg.Valid() && processedFiles.Valid()
    }

    constructor (targetSr: int, targetDuration: real, calibrationSamples: int, evalSamples: int,
                 gapDuration: real, previouslyProcessed: set<string>)
      requires MakeConfig(targetSr, targetDuration, calibrationSamples, evalSamples, gapDuration).Valid()
      ensures Valid()
      ensures cfg == MakeConfig(targetSr, targetDuration, calibrationSamples, evalSamples, gapDuration)
      ensures this.previouslyProcessed == previouslyProcessed
      ensures processedFiles == Ledger([], map[])
    {
      cfg := MakeConfig(targetSr, targetDuration, calibrationSamples, evalSamples, gapDuration);
      this.previouslyProcessed := previouslyProcessed;
      processedFiles := Ledger([], map[]);
    }

    /** `process_domain_files`: writes the domain's segments for one split
        and records each file it processed. */
    method ProcessDomainFiles(files: seq<string>, outputDir: string, domain: string, setType: string,
                              load: string -> LoadOutcome, clock: nat -> string)
      returns (split: map<string, seq<string>>)
      requires Valid()
      modifies this
      ensures Valid()
      ensures var r := Batch(Env(cfg, previouslyProcessed, load, clock), domain, setType, files, 0,
                             Tally(0, old(processedFiles)));
        processedFiles == r.ledger &&
        split == map[SplitKey(domain, setType) := OutputPaths(outputDir, setType, domain, r.count)]
    {
      ghost var env := Env(cfg, previouslyProcessed, load, clock);
      ghost var goal := Batch(env, domain, setType, files, 0, Tally(0, processedFiles));
      var processed: seq<string> := [];
      var targetCount := Quota(cfg, setType);
      var outPath := OutputDir(outputDir, setType, domain);
      var i := 0;
      while i < |files|
        invariant 0 <= i <= |files|
        invariant Valid()
        invariant processed == OutputPaths(outputDir, setType, domain, |processed|)
        invariant Batch(env, domain, setType, files, i, Tally(|processed|, processedFiles)) == goal
      {
        ghost var before := Tally(|processed|, processedFiles);
        var filename := Basename(files[i]);
        if filename in previouslyProcessed {
          assert VisitFile(env, domain, setType, files[i], before) == Next(before);
          i := i + 1;
          continue;
        }
        var filenamesForFile: seq<string> := [];
        if |processed| >= targetCount {
          assert VisitFile(env, domain, setType, files[i], before) == Stop;
          break;
        }
        if filename in processedFiles.records {
          assert VisitFile(env, domain, setType, files[i], before) == Next(before);
          i := i + 1;
          continue;
        }
        var result := LoadAndProcessAudio(cfg, load(files[i]));
        if result.Raised? {
          assert VisitFile(env, domain, setType, files[i], before) == Next(before);
          i := i + 1;
          continue;
        }
        var segments := result.segments;
        var j := 0;
        while j < |segments|
          invariant 0 <= j <= |segments|
          invariant |processed| == before.count + j && |processed| <= targetCount
          invariant processed == OutputPaths(outputDir, setType, domain, |processed|)
          invariant filenamesForFile == NameRange(domain, before.count, |processed|)
          invariant processedFiles == before.ledger
        {
          if |processed| >= targetCount {
            break;
          }
          var processedFilename := OutputName(domain, |processed|);
          OutputPathsSnoc(outputDir, setType, domain, |processed|);
          NameRangeSnoc(domain, before.count, |processed|);
          filenamesForFile := filenamesForFile + [processedFilename];
          processed := processed + [Join(outPath, processedFilename)];
          j := j + 1;
        }
        VisitWrites(env, domain, setType, files[i], before, segments, |processed|);
        processedFiles := processedFiles.Add(filename,
          Record(files[i], clock(|processedFiles.order|), filenamesForFile));
        i := i + 1;
      }
      split := map[SplitKey(domain, setType) := processed];
    }

    /** `create_dataset_splits`: the calibration passes over the three
        domains, then the evaluation passes, merged into one manifest. */
    method CreateDatasetSplits(speechFiles: seq<string>, musicFiles: seq<string>, envFiles: seq<string>,
                               outputDir: string, load: string -> LoadOutcome, clock: nat -> string)
      returns (datasetSplits: map<string, seq<string>>)
      requires Valid()
      modifies this
      ensures Valid()
      ensures var p := Assemble(Env(cfg, previouslyProcessed, load, clock), outputDir,
                                speechFiles, musicFiles, envFiles, old(processedFiles));
        datasetSplits == p.splits && processedFiles == p.ledger
    {
      ghost var env := Env(cfg, previouslyProcessed, load, clock);
      var jobs := Jobs(speechFiles, musicFiles, envFiles);
      datasetSplits := map[];
      ghost var start := Progress(map[], processedFiles);
      for k := 0 to |jobs|
        invariant Valid()
        invariant Progress(datasetSplits, processedFiles) == RunPasses(env, outputDir, "calibration", jobs[..k], start)
      {
        var splitFiles := ProcessDomainFiles(jobs[k].files, outputDir, jobs[k].domain, "calibration", load, clock);
        datasetSplits := datasetSplits + splitFiles;
        assert jobs[..k + 1][..k] == jobs[..k];
      }
      assert jobs[..|jobs|] == jobs;
      ghost var calibration := Progress(datasetSplits, processedFiles);
      for k := 0 to |jobs|
        invariant Valid()
        invariant Progress(datasetSplits, processedFiles) == RunPasses(env, outputDir, "evaluation", jobs[..k], calibration)
      {
        var splitFiles := ProcessDomainFiles(jobs[k].files, outputDir, jobs[k].domain, "evaluation", load, clock);
        datasetSplits := datasetSplits + splitFiles;
        assert jobs[..k + 1][..k] == jobs[..k];
      }
      assert jobs[..|jobs|] == jobs;
    }
  }
}
