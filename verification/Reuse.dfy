/**
 When a conversion command may run, when it reuses the files of an earlier one, and which files
 those are.
 */
module Reuse {
  import opened Text
  import opened Ticks
  import opened Chunks
  import opened ServerTime
  import opened Dataset
  import opened Stages
  import opened Pipeline
  import C = Convert
  import V = Validate

  /** Step `k` is the last conversion before step `n` that finished. */
  ghost predicate LastConversion(steps: seq<Step>, k: nat, n: nat) {
    && k < n <= |steps| && Finishes(steps[k])
    && forall j :: k < j < n ==> !Finishes(steps[j])
  }

  ghost predicate Finishes(step: Step) {
    step.Convert? && step.end.Regenerated?
  }

  /** Between the two steps no conversion was cut short and no converted file was lost. */
  ghost predicate Undisturbed(run: seq<State>, steps: seq<Step>, k: nat, n: nat)
    requires n <= |steps| < |run|
  {
    forall j :: k < j < n ==> LeavesFiles(run[j], steps[j])
  }

  ghost predicate LeavesFiles(s: State, step: Step) {
    && (step.Convert? ==> !step.end.Aborted? && !step.end.Interrupted?)
    && (step.Lose? ==> step.names !! s.mt5.Keys)
  }

  lemma OneDownloadKeepsConversion(p: Progress, id: string, fetched: Fetched, force: bool)
    requires id in p.state.entries
    ensures var t := DownloadOne(p, id, fetched, force).state;
      t.convert == p.state.convert && t.mt5 == p.state.mt5
  {
    hide AlreadyDownloaded, DownloadOf;
  }

  lemma {:induction false} DownloadKeepsConversion(s: State, provider: Provider, maxAttempts: nat,
          chunks: seq<Chunk>, force: bool)
    requires HasEntries(s.entries, chunks)
    ensures var t := DownloadAll(s, provider, maxAttempts, chunks, force).state;
      t.convert == s.convert && t.mt5 == s.mt5
  {
    hide Fetch, DownloadOne;
    if chunks != [] {
      var n := |chunks| - 1;
      assert forall i :: 0 <= i < n ==> chunks[..n][i] == chunks[i];
      DownloadKeepsConversion(s, provider, maxAttempts, chunks[..n], force);
      var id := chunks[n].chunkId;
      OneDownloadKeepsConversion(DownloadAll(s, provider, maxAttempts, chunks[..n], force), id,
        Fetch(provider, id, maxAttempts), force);
    }
  }

  lemma OneKeepsConversion(p: Progress, chunk: Chunk, force: bool)
    requires chunk.chunkId in p.state.entries
    ensures var t := NormalizeOne(p, chunk, force).state;
      t.convert == p.state.convert && t.mt5 == p.state.mt5
  {
    hide RecordOfRows, NormalizedFileOf, NormalizeUpToDate;
  }

  lemma {:induction false} NormalizeKeepsConversion(s: State, chunks: seq<Chunk>, force: bool)
    requires HasEntries(s.entries, chunks)
    ensures var t := NormalizeAll(s, chunks, force).state;
      t.convert == s.convert && t.mt5 == s.mt5
  {
    hide NormalizeOne;
    if chunks != [] {
      var n := |chunks| - 1;
      assert forall i :: 0 <= i < n ==> chunks[..n][i] == chunks[i];
      NormalizeKeepsConversion(s, chunks[..n], force);
      OneKeepsConversion(NormalizeAll(s, chunks[..n], force), chunks[n], force);
    }
  }

  /** What a command does to the record and to the files of a conversion. */
  lemma StepOnConversion(plans: Plans, s: State, step: Step, t: State)
    requires Next(plans, s, step, t)
    ensures !Finishes(step) ==> t.convert == s.convert
    ensures Finishes(step) ==>
      t.mt5 == C.Directory(step.end.files)
      && t.convert == Some(ConvertRecord(FingerprintOf(s.entries), CONVERSION_VERSION, step.rule, step.end.files,
                                         step.end.total))
    ensures !Finishes(step) && LeavesFiles(s, step) ==> t.mt5 == s.mt5
  {
    if step.Download? {
      DownloadKeepsConversion(s, step.provider, step.maxAttempts, PlanOf(plans, step.unit)[..step.upTo], step.force);
    } else if step.Normalize? {
      NormalizeKeepsConversion(s, PlanOf(plans, step.unit)[..step.upTo], step.force);
    }
    hide C.Converted, C.Readable, C.WallsAscend, C.Directory, Registered, DownloadAll, NormalizeAll, V.ValidationOf,
      FingerprintOf, MayConvert, ConvertUpToDate, AllTicks;
  }

  /** The manifest's conversion record is that of the last conversion that finished, if there is one. */
  lemma {:induction false} RecordIsLast(plans: Plans, run: seq<State>, steps: seq<Step>, n: nat)
    requires IsRun(plans, run, steps) && n < |run|
    ensures run[n].convert.None? ==> forall k :: 0 <= k < n ==> !Finishes(steps[k])
    ensures run[n].convert.Some? ==> exists k :: 0 <= k < n && LastConversion(steps, k, n)
    ensures forall k :: 0 <= k < n && LastConversion(steps, k, n) ==>
      run[n].convert == Some(ConvertRecord(FingerprintOf(run[k].entries), CONVERSION_VERSION, steps[k].rule,
                                           steps[k].end.files, steps[k].end.total))
  {
    hide Next, FingerprintOf, Finishes;
    if n > 0 {
      RecordIsLast(plans, run, steps, n - 1);
      assert Next(plans, run[n - 1], steps[n - 1], run[n - 1 + 1]);
      StepOnConversion(plans, run[n - 1], steps[n - 1], run[n]);
      if Finishes(steps[n - 1]) {
        assert LastConversion(steps, n - 1, n);
      } else {
        forall k | 0 <= k < n
          ensures LastConversion(steps, k, n) <==> k < n - 1 && LastConversion(steps, k, n - 1)
        {}
        if run[n].convert.Some? {
          var k :| 0 <= k < n - 1 && LastConversion(steps, k, n - 1);
          assert LastConversion(steps, k, n);
        }
      }
    }
  }

  /** Undisturbed, the directory is as the last conversion left it. */
  lemma {:induction false} FilesStay(plans: Plans, run: seq<State>, steps: seq<Step>, k: nat, n: nat)
    requires IsRun(plans, run, steps) && n < |run| && LastConversion(steps, k, n) && Undisturbed(run, steps, k, n)
    ensures run[n].mt5 == C.Directory(steps[k].end.files)
    decreases n
  {
    hide Next, Finishes, C.Directory;
    assert Next(plans, run[n - 1], steps[n - 1], run[n - 1 + 1]);
    StepOnConversion(plans, run[n - 1], steps[n - 1], run[n]);
    if k < n - 1 {
      FilesStay(plans, run, steps, k, n - 1);
    }
  }

  /** Every file of a conversion is still there. */
  ghost predicate AllThere(s: State, files: seq<C.MonthRecord>) {
    forall i :: 0 <= i < |files| ==> files[i].name in s.mt5
  }

  /** The converted data, the server time and the files are those of step `k`. */
  ghost predicate NothingToDo(run: seq<State>, steps: seq<Step>, k: nat, n: nat)
    requires k < n < |steps| <= |run| && Finishes(steps[k]) && steps[n].Convert?
  {
    && steps[k].rule == steps[n].rule
    && FingerprintOf(run[k].entries) == FingerprintOf(run[n].entries)
    && AllThere(run[n], steps[k].end.files)
  }

  /** Some earlier finished conversion is the last one and leaves nothing to do. */
  ghost predicate ConvertedBefore(run: seq<State>, steps: seq<Step>, n: nat)
    requires n < |steps| < |run| && steps[n].Convert?
  {
    exists k :: 0 <= k < n && LastConversion(steps, k, n) && NothingToDo(run, steps, k, n)
  }

  lemma UpToDateMeans(plans: Plans, run: seq<State>, steps: seq<Step>, n: nat)
    requires IsRun(plans, run, steps) && n < |steps| && steps[n].Convert?
    ensures ConvertUpToDate(run[n], steps[n].rule) <==> ConvertedBefore(run, steps, n)
  {
    RecordIsLast(plans, run, steps, n);
    hide Next, FingerprintOf;
  }

  ghost predicate Passes(plans: Plans, s: State, step: Step) {
    step.Validate? && ValidationAt(plans, s, step).verdict != Fail
  }

  /** The last validation, of the data as it is now, did not fail. */
  ghost predicate Permitted(plans: Plans, run: seq<State>, steps: seq<Step>, n: nat)
    requires n <= |steps| < |run|
  {
    exists m :: 0 <= m < n && LastValidate(steps, m, n)
      && Passes(plans, run[m], steps[m])
      && FingerprintOf(run[m].entries) == FingerprintOf(run[n].entries)
  }

  lemma {:induction false} NoValidationBefore(plans: Plans, run: seq<State>, steps: seq<Step>, n: nat)
    requires IsRun(plans, run, steps) && n < |run| && run[n].validation.None?
    ensures forall m :: 0 <= m < n ==> !steps[m].Validate?
  {
    hide Next;
    if n > 0 {
      assert Next(plans, run[n - 1], steps[n - 1], run[n - 1 + 1]);
      NoneStays(plans, run[n - 1], steps[n - 1], run[n]);
      NoValidationBefore(plans, run, steps, n - 1);
    }
  }

  lemma NoneStays(plans: Plans, s: State, step: Step, t: State)
    requires Next(plans, s, step, t) && t.validation.None?
    ensures !step.Validate? && s.validation.None?
  {
    if !step.Validate? {
      StageKeepsValidation(plans, s, step, t);
    }
    hide DownloadAll, NormalizeAll, C.Converted, C.Readable, C.WallsAscend, C.Directory, Registered, ConvertStep;
  }

  lemma MayConvertMeans(plans: Plans, run: seq<State>, steps: seq<Step>, n: nat)
    requires IsRun(plans, run, steps) && n < |steps|
    ensures MayConvert(run[n]) <==> Permitted(plans, run, steps, n)
  {
    hide Next, FingerprintOf, ValidationAt;
    if run[n].validation.Some? {
      var m := ValidationIsLast(plans, run, steps, n);
      FingerprintAt(plans, run[m], steps[m]);
      forall m' | 0 <= m' < n && LastValidate(steps, m', n)
        ensures m' == m
      {}
    } else {
      NoValidationBefore(plans, run, steps, n);
    }
  }

  /**
   A conversion command is refused exactly unless the last validation passed or warned, and saw the
   data as it is now; it reuses what is there exactly when it is not forced and the last conversion
   that finished was of the same data to the same server time and all its files are still there.
   */
  lemma EndsExactly(plans: Plans, run: seq<State>, steps: seq<Step>, n: nat)
    requires IsRun(plans, run, steps) && n < |steps| && steps[n].Convert?
    ensures steps[n].end.NotAllowed? <==> !Permitted(plans, run, steps, n)
    ensures steps[n].end.Reused?
      <==> Permitted(plans, run, steps, n) && !steps[n].force && ConvertedBefore(run, steps, n)
    ensures steps[n].end.NotAllowed? || steps[n].end.Reused? ==> run[n + 1] == run[n]
  {
    MayConvertMeans(plans, run, steps, n);
    UpToDateMeans(plans, run, steps, n);
    assert Next(plans, run[n], steps[n], run[n + 1]);
    EndMeans(plans, run[n], steps[n], run[n + 1]);
    hide *;
  }

  lemma EndMeans(plans: Plans, s: State, step: Step, t: State)
    requires step.Convert? && Next(plans, s, step, t)
    ensures step.end.NotAllowed? <==> !MayConvert(s)
    ensures step.end.Reused? <==> MayConvert(s) && !step.force && ConvertUpToDate(s, step.rule)
    ensures step.end.NotAllowed? || step.end.Reused? ==> t == s
  {
    hide C.Converted, C.Readable, C.WallsAscend, C.Directory, FingerprintOf, MayConvert, ConvertUpToDate, AllTicks;
  }

  /**
   What is reused is the work of an earlier conversion of the same data to the same server time.
   Its files are all there, and undisturbed they are the whole directory: the image, under this
   command's own rule, of the ticks that the earlier conversion read.
   */
  lemma ReusedMeans(plans: Plans, run: seq<State>, steps: seq<Step>, n: nat) returns (k: nat)
    requires IsRun(plans, run, steps) && n < |steps| && steps[n].Convert? && steps[n].end.Reused?
    ensures k < n && LastConversion(steps, k, n) && run[n + 1] == run[n]
    ensures steps[k].rule == steps[n].rule && FingerprintOf(run[k].entries) == FingerprintOf(run[n].entries)
    ensures AllThere(run[n], steps[k].end.files)
    ensures var ticks := AllTicks(run[k].entries, run[k].normalized, PlanOf(plans, steps[k].unit));
      C.Converted(steps[k].zone, steps[n].rule, steps[k].prefix, ticks, steps[k].end.files, steps[k].end.total)
    ensures Undisturbed(run, steps, k, n) ==> run[n].mt5 == C.Directory(steps[k].end.files)
  {
    EndsExactly(plans, run, steps, n);
    k :| 0 <= k < n && LastConversion(steps, k, n) && NothingToDo(run, steps, k, n);
    assert Next(plans, run[k], steps[k], run[k + 1]);
    RegeneratedMeans(plans, run[k], steps[k], run[k + 1]);
    hide Next, FingerprintOf, C.Converted, AllTicks, C.Readable, Undisturbed, C.Directory;
    if Undisturbed(run, steps, k, n) {
      FilesStay(plans, run, steps, k, n);
    }
  }
}
