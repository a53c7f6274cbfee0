/** Splitting at gaps: the result is the one maximal partition into gap-free runs. */
module Gaps {
  import opened Engine

  function Flatten(runs: seq<seq<Sample>>): seq<Sample> {
    if runs == [] then [] else Flatten(runs[..|runs| - 1]) + runs[|runs| - 1]
  }

  ghost predicate GapFree(run: seq<Sample>, maxGap: int) {
    forall i, j :: 0 <= i < j < |run| && j == i + 1 ==> run[j].time - run[i].time <= maxGap
  }

  /** Consecutive runs are separated by a gap wider than `maxGap`. */
  ghost predicate Separated(a: seq<Sample>, b: seq<Sample>, maxGap: int)
    requires a != [] && b != []
  {
    b[0].time - a[|a| - 1].time > maxGap
  }

  /** What the runs of a partition are, whatever they make up together. */
  ghost predicate RunsApart(runs: seq<seq<Sample>>, maxGap: int) {
    && (forall k :: 0 <= k < |runs| ==> runs[k] != [] && GapFree(runs[k], maxGap))
    && (forall k, l :: 0 <= k < l < |runs| && l == k + 1 ==> Separated(runs[k], runs[l], maxGap))
  }

  ghost predicate GapPartition(samples: seq<Sample>, maxGap: int, runs: seq<seq<Sample>>) {
    Flatten(runs) == samples && RunsApart(runs, maxGap)
  }

  /** Removing the last sample of a partition leaves a partition. */
  lemma DropLast(samples: seq<Sample>, maxGap: int, runs: seq<seq<Sample>>) returns (earlier: seq<seq<Sample>>)
    requires samples != [] && GapPartition(samples, maxGap, runs)
    ensures GapPartition(samples[..|samples| - 1], maxGap, earlier)
    ensures var n, s := |samples| - 1, samples[|samples| - 1];
      if n == 0 || s.time - samples[n - 1].time > maxGap then runs == earlier + [[s]]
      else earlier != [] && runs == earlier[..|earlier| - 1] + [earlier[|earlier| - 1] + [s]]
  {
    var k := |runs| - 1;
    var init, last := runs[..k], runs[k];
    Cut(Flatten(init), last);
    assert runs == init + [last];
    if |last| == 1 {
      earlier := init;
      AloneAfterGap(init, last, maxGap);
    } else {
      earlier := init + [last[..|last| - 1]];
      ShorterRun(init, last, maxGap);
    }
  }

  /** The last element of a concatenation is that of its second part. */
  lemma Cut(a: seq<Sample>, b: seq<Sample>)
    requires b != []
    ensures (a + b)[..|a + b| - 1] == a + b[..|b| - 1]
    ensures (a + b)[|a + b| - 1] == b[|b| - 1]
    ensures b == b[..|b| - 1] + [b[|b| - 1]]
  {
  }

  lemma FlattenAppend(init: seq<seq<Sample>>, last: seq<Sample>)
    ensures Flatten(init + [last]) == Flatten(init) + last
  {
    assert (init + [last])[..|init|] == init;
  }

  lemma ApartPrefix(init: seq<seq<Sample>>, last: seq<Sample>, maxGap: int)
    requires RunsApart(init + [last], maxGap)
    ensures RunsApart(init, maxGap)
    ensures last != [] && GapFree(last, maxGap)
    ensures init != [] ==> init[|init| - 1] != [] && Separated(init[|init| - 1], last, maxGap)
  {
    var runs := init + [last];
    assert runs[|init|] == last;
    assert forall k :: 0 <= k < |init| ==> init[k] == runs[k];
    if init != [] {
      assert Separated(runs[|init| - 1], runs[|init|], maxGap);
    }
    forall k, l | 0 <= k < l < |init| && l == k + 1 ensures Separated(init[k], init[l], maxGap) {
      assert Separated(runs[k], runs[l], maxGap);
    }
  }

  lemma PartitionPrefix(init: seq<seq<Sample>>, last: seq<Sample>, maxGap: int)
    requires GapPartition(Flatten(init + [last]), maxGap, init + [last])
    ensures GapPartition(Flatten(init), maxGap, init)
    ensures Flatten(init + [last]) == Flatten(init) + last
    ensures last != [] && GapFree(last, maxGap)
    ensures init != [] ==> init[|init| - 1] != [] && Separated(init[|init| - 1], last, maxGap)
  {
    FlattenAppend(init, last);
    ApartPrefix(init, last, maxGap);
  }

  /** A last run of one sample stands after a wide gap, or at the start. */
  lemma AloneAfterGap(init: seq<seq<Sample>>, last: seq<Sample>, maxGap: int)
    requires |last| == 1
    requires GapPartition(Flatten(init + [last]), maxGap, init + [last])
    ensures GapPartition(Flatten(init), maxGap, init)
    ensures var before := Flatten(init); before == [] || last[0].time - before[|before| - 1].time > maxGap
  {
    PartitionPrefix(init, last, maxGap);
    if Flatten(init) != [] {
      LastSample(init);
    }
  }

  /** A longer one does without its last sample, which no wide gap separates from it. */
  lemma ShorterRun(init: seq<seq<Sample>>, last: seq<Sample>, maxGap: int)
    requires |last| >= 2
    requires GapPartition(Flatten(init + [last]), maxGap, init + [last])
    ensures var n := |last| - 1;
      && GapPartition(Flatten(init) + last[..n], maxGap, init + [last[..n]])
      && last[n].time - last[n - 1].time <= maxGap
  {
    var n := |last| - 1;
    PartitionPrefix(init, last, maxGap);
    AppendRun(Flatten(init), init, last[..n], maxGap);
  }

  lemma ApartAppend(init: seq<seq<Sample>>, run: seq<Sample>, maxGap: int)
    requires RunsApart(init, maxGap)
    requires run != [] && GapFree(run, maxGap)
    requires init != [] ==> init[|init| - 1] != [] && Separated(init[|init| - 1], run, maxGap)
    ensures RunsApart(init + [run], maxGap)
  {
    var runs := init + [run];
    assert runs[|init|] == run;
    assert forall k :: 0 <= k < |init| ==> init[k] == runs[k];
    forall k, l | 0 <= k < l < |runs| && l == k + 1 ensures Separated(runs[k], runs[l], maxGap) {
      assert l < |init| ==> Separated(init[k], init[l], maxGap);
    }
  }

  lemma AppendRun(before: seq<Sample>, init: seq<seq<Sample>>, run: seq<Sample>, maxGap: int)
    requires GapPartition(before, maxGap, init)
    requires run != [] && GapFree(run, maxGap)
    requires init != [] ==> init[|init| - 1] != [] && Separated(init[|init| - 1], run, maxGap)
    ensures GapPartition(before + run, maxGap, init + [run])
  {
    FlattenAppend(init, run);
    ApartAppend(init, run, maxGap);
  }

  lemma LastSample(runs: seq<seq<Sample>>)
    requires Flatten(runs) != []
    requires forall k :: 0 <= k < |runs| ==> runs[k] != []
    ensures runs != []
    ensures var f, r := Flatten(runs), runs[|runs| - 1]; f[|f| - 1] == r[|r| - 1]
  {
  }

  lemma FlattenNonempty(runs: seq<seq<Sample>>)
    requires forall k :: 0 <= k < |runs| ==> runs[k] != []
    ensures runs != [] ==> Flatten(runs) != []
  {
    if runs != [] {
      assert runs[|runs| - 1] != [];
    }
  }

  /** Any partition into gap-free runs with wide gaps between them is the engine's. */
  lemma {:induction false} PartitionUnique(samples: seq<Sample>, maxGap: int, runs: seq<seq<Sample>>)
    requires GapPartition(samples, maxGap, runs)
    ensures runs == Runs(samples, maxGap)
    decreases |samples|
  {
    if samples == [] {
      FlattenNonempty(runs);
    } else {
      var earlier := DropLast(samples, maxGap, runs);
      PartitionUnique(samples[..|samples| - 1], maxGap, earlier);
    }
  }

  lemma ExtendLast(init: seq<seq<Sample>>, run: seq<Sample>, s: Sample, before: seq<Sample>, maxGap: int)
    requires GapPartition(before, maxGap, init + [run])
    requires run != [] && s.time - run[|run| - 1].time <= maxGap
    ensures GapPartition(before + [s], maxGap, init + [run + [s]])
  {
    hide Flatten, RunsApart;
    PartitionPrefix(init, run, maxGap);
    LongerRun(init, run, s, maxGap);
    AppendRun(Flatten(init), init, run + [s], maxGap);
    assert Flatten(init) + (run + [s]) == (Flatten(init) + run) + [s];
  }

  lemma LongerRun(init: seq<seq<Sample>>, run: seq<Sample>, s: Sample, maxGap: int)
    requires run != [] && GapFree(run, maxGap) && s.time - run[|run| - 1].time <= maxGap
    requires init != [] ==> init[|init| - 1] != [] && Separated(init[|init| - 1], run, maxGap)
    ensures GapFree(run + [s], maxGap)
    ensures init != [] ==> Separated(init[|init| - 1], run + [s], maxGap)
  {
  }

  lemma OpenRun(runs: seq<seq<Sample>>, s: Sample, before: seq<Sample>, maxGap: int)
    requires GapPartition(before, maxGap, runs)
    requires before != [] ==> s.time - before[|before| - 1].time > maxGap
    ensures GapPartition(before + [s], maxGap, runs + [[s]])
  {
    FlattenNonempty(runs);
    if runs != [] {
      LastSample(runs);
    }
    AppendRun(before, runs, [s], maxGap);
  }

  predicate Opens(samples: seq<Sample>, maxGap: int)
    requires samples != []
  {
    var n := |samples| - 1;
    n == 0 || samples[n].time - samples[n - 1].time > maxGap
  }

  /** The last sample opens a run, or extends the last one. */
  lemma RunsLast(samples: seq<Sample>, maxGap: int)
    requires samples != []
    ensures var n := |samples| - 1;
      var earlier := Runs(samples[..n], maxGap);
      if Opens(samples, maxGap) then Runs(samples, maxGap) == earlier + [[samples[n]]]
      else
        && earlier != []
        && Runs(samples, maxGap) == earlier[..|earlier| - 1] + [earlier[|earlier| - 1] + [samples[n]]]
  {
  }

  /** The engine's runs concatenate to the input, are not empty, have no wide gap inside and one at every seam. */
  lemma {:induction false} RunsPartition(samples: seq<Sample>, maxGap: int)
    ensures GapPartition(samples, maxGap, Runs(samples, maxGap))
    decreases |samples|
  {
    if samples == [] {
    } else {
      var n := |samples| - 1;
      RunsPartition(samples[..n], maxGap);
      assert samples == samples[..n] + [samples[n]];
      RunsLast(samples, maxGap);
      OneSampleMore(samples, maxGap, Runs(samples[..n], maxGap));
    }
  }

  lemma OneSampleMore(samples: seq<Sample>, maxGap: int, earlier: seq<seq<Sample>>)
    requires samples != [] && GapPartition(samples[..|samples| - 1], maxGap, earlier)
    ensures var n := |samples| - 1;
      if Opens(samples, maxGap) then GapPartition(samples[..n] + [samples[n]], maxGap, earlier + [[samples[n]]])
      else earlier != [] ==>
        GapPartition(samples[..n] + [samples[n]], maxGap,
                     earlier[..|earlier| - 1] + [earlier[|earlier| - 1] + [samples[n]]])
  {
    var n := |samples| - 1;
    if Opens(samples, maxGap) {
      OpenRun(earlier, samples[n], samples[..n], maxGap);
    } else if earlier != [] {
      var init, run := earlier[..|earlier| - 1], earlier[|earlier| - 1];
      assert earlier == init + [run];
      FlattenNonempty(earlier);
      LastSample(earlier);
      ExtendLast(init, run, samples[n], samples[..n], maxGap);
    }
  }

  /** Both directions: a list of runs is such a partition exactly when it is the engine's result. */
  lemma PartitionIff(samples: seq<Sample>, maxGap: int, runs: seq<seq<Sample>>)
    ensures GapPartition(samples, maxGap, runs) <==> runs == Runs(samples, maxGap)
  {
    RunsPartition(samples, maxGap);
    if GapPartition(samples, maxGap, runs) {
      PartitionUnique(samples, maxGap, runs);
    }
  }
}
