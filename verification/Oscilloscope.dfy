/** The sample history behind a plot: appending in the order of time, trimming under stable indices, and the
  * searches and the envelope that read it. */
module Oscilloscope {
  import opened Basics
  import opened WaveCsv

  const EPSILON: real := 0.000000000001

  // ---------------------------------------------------------------- preparing a batch

  /** The first positive step of time, or a tiny one. */
  function TimeStep(samples: seq<Sample>): (step: real)
    ensures step > 0.0
  {
    if |samples| < 2 then EPSILON
    else if samples[1].time > samples[0].time then samples[1].time - samples[0].time
    else TimeStep(samples[1..])
  }

  /** Sample `k` is the first that is later than the one before it. */
  predicate FirstRise(samples: seq<Sample>, k: nat) {
    && 0 < k < |samples| && samples[k].time > samples[k - 1].time
    && forall j :: 0 < j < k ==> samples[j].time <= samples[j - 1].time
  }

  lemma {:induction false} StepMeans(samples: seq<Sample>)
    ensures forall k: nat :: FirstRise(samples, k) ==> TimeStep(samples) == samples[k].time - samples[k - 1].time
    ensures (forall k: nat :: !FirstRise(samples, k)) ==> TimeStep(samples) == 0.000000000001
  {
    if |samples| >= 2 && samples[1].time <= samples[0].time {
      StepMeans(samples[1..]);
      forall k: nat
        ensures FirstRise(samples, k) <==> k > 0 && FirstRise(samples[1..], k - 1)
      {
        LaterRise(samples, k);
      }
      if k: nat :| FirstRise(samples[1..], k) {
        assert FirstRise(samples, k + 1);
      }
    } else if |samples| >= 2 {
      assert FirstRise(samples, 1);
    }
  }

  lemma LaterRise(samples: seq<Sample>, k: nat)
    requires |samples| >= 2 && samples[1].time <= samples[0].time
    ensures FirstRise(samples, k) <==> k > 0 && FirstRise(samples[1..], k - 1)
  {
    var tail := samples[1..];
    assert forall j :: 0 <= j < |tail| ==> tail[j] == samples[j + 1];
    if k > 0 && FirstRise(tail, k - 1) {
      forall j | 0 < j < k
        ensures samples[j].time <= samples[j - 1].time
      {
        if j > 1 {
          assert tail[j - 1].time <= tail[j - 2].time;
        }
      }
    }
  }

  /** The step up to the first sample that is later than the one before it, or a constant if there is none. */
  method EstimateTimeStep(samples: seq<Sample>) returns (step: real)
    ensures forall k: nat :: FirstRise(samples, k) ==> step == samples[k].time - samples[k - 1].time
    ensures (forall k: nat :: !FirstRise(samples, k)) ==> step == 0.000000000001
    ensures step == TimeStep(samples)
  {
    StepMeans(samples);
    var index := 1;
    assert samples[0..] == samples;
    while index < |samples|
      invariant index >= 1 && (samples != [] ==> index <= |samples|)
      invariant index <= |samples| ==> TimeStep(samples[index - 1..]) == TimeStep(samples)
    {
      assert samples[index - 1..][1..] == samples[index..];
      if samples[index].time > samples[index - 1].time {
        return samples[index].time - samples[index - 1].time;
      }
      index := index + 1;
    }
    if samples != [] {
      assert |samples[|samples| - 1..]| == 1;
    }
    step := EPSILON;
  }

  function Shifted(samples: seq<Sample>, offset: real): (r: seq<Sample>)
    ensures |r| == |samples|
    ensures forall i :: 0 <= i < |r| ==> r[i] == Sample(samples[i].time + offset, samples[i].value)
  {
    seq(|samples|, i requires 0 <= i < |samples| => Sample(samples[i].time + offset, samples[i].value))
  }

  /** The samples later than `last`. */
  function Later(samples: seq<Sample>, last: real): seq<Sample> {
    if samples == [] then []
    else (if samples[0].time <= last then [] else [samples[0]]) + Later(samples[1..], last)
  }

  lemma {:induction false} LaterKeepsOrder(samples: seq<Sample>, last: real)
    requires Sorted(samples)
    ensures Sorted(Later(samples, last))
    ensures forall s :: s in Later(samples, last) <==> s in samples && s.time > last
    ensures (forall i :: 0 <= i < |samples| ==> samples[i].time > last) ==> Later(samples, last) == samples
  {
    if samples != [] {
      var first, tail := samples[0], samples[1..];
      assert samples == [first] + tail;
      LaterKeepsOrder(tail, last);
      var rest := Later(tail, last);
      if first.time > last {
        forall i | 0 <= i < |rest| ensures first.time <= rest[i].time {
          assert rest[i] in tail;
        }
      }
    }
  }

  /** How far a batch that starts over is moved so that it goes on after `last`. */
  function RestartOffset(samples: seq<Sample>, last: real): real
    requires samples != []
  {
    last + TimeStep(samples) - samples[0].time
  }

  predicate StartsOver(samples: seq<Sample>, last: real) {
    samples != [] && samples[0].time <= last && samples[0].time <= EPSILON
  }

  /** A batch starts over that begins at or before zero and not after the history; one that begins later than the
    * history, or later than a tiny time after zero, does not. */
  lemma StartsAtZero(samples: seq<Sample>, last: real)
    requires samples != []
    ensures samples[0].time <= 0.0 && samples[0].time <= last ==> StartsOver(samples, last)
    ensures samples[0].time > 0.000000000001 || samples[0].time > last ==> !StartsOver(samples, last)
  {
  }

  /** What a sorted batch adds to a history that ends at `last` when a restart does not clear it. */
  function Added(samples: seq<Sample>, last: real): seq<Sample> {
    Later(if StartsOver(samples, last) then Shifted(samples, RestartOffset(samples, last)) else samples, last)
  }

  /** A batch that starts over loses no sample; of any other batch exactly the samples that are not later are
    * dropped.  What is added is in order and later than the history. */
  lemma AddedSamples(samples: seq<Sample>, last: real)
    requires Sorted(samples)
    ensures Sorted(Added(samples, last))
    ensures forall s :: s in Added(samples, last) ==> s.time > last
    ensures StartsOver(samples, last) ==>
      Added(samples, last) == Shifted(samples, RestartOffset(samples, last))
      && Added(samples, last)[0].time == last + TimeStep(samples)
    ensures !StartsOver(samples, last) ==>
      forall s :: s in Added(samples, last) <==> s in samples && s.time > last
  {
    if StartsOver(samples, last) {
      var moved := Shifted(samples, RestartOffset(samples, last));
      forall i | 0 <= i < |moved| ensures moved[i].time > last {
        assert samples[0].time <= samples[i].time;
      }
      LaterKeepsOrder(moved, last);
    } else {
      LaterKeepsOrder(samples, last);
    }
  }

  // ---------------------------------------------------------------- the history

  datatype Channel = Channel(samples: seq<Sample>, sampleIndexOffset: nat)

  /** The channel shows the end of all samples it took since the last reset, under their numbers. */
  predicate Shows(c: Channel, taken: seq<Sample>) {
    && c.sampleIndexOffset <= |taken| && c.samples == taken[c.sampleIndexOffset..]
    && Sorted(taken)
    && (c.samples == [] ==> taken == [])
  }

  /** The last `limit` samples, under the same numbers; 0 stands for no limit. */
  function Trimmed(c: Channel, limit: nat): Channel {
    if limit == 0 || |c.samples| <= limit then c
    else Channel(c.samples[|c.samples| - limit..], c.sampleIndexOffset + (|c.samples| - limit))
  }

  lemma TrimmedShows(c: Channel, taken: seq<Sample>, limit: nat)
    requires Shows(c, taken)
    ensures Shows(Trimmed(c, limit), taken)
    ensures limit > 0 ==> |Trimmed(c, limit).samples| <= limit
  {
  }

  lemma GrownShows(c: Channel, taken: seq<Sample>, more: seq<Sample>)
    requires Shows(c, taken) && Sorted(more)
    requires taken != [] ==> forall s :: s in more ==> s.time > taken[|taken| - 1].time
    ensures Shows(Channel(c.samples + more, c.sampleIndexOffset), taken + more)
  {
    assert (taken + more)[c.sampleIndexOffset..] == taken[c.sampleIndexOffset..] + more;
    forall i, j | 0 <= i < j < |taken + more| ensures (taken + more)[i].time <= (taken + more)[j].time {
      if j < |taken| {
        assert taken[i].time <= taken[j].time;
      } else if i < |taken| {
        assert more[j - |taken|] in more;
        assert taken[i].time <= taken[|taken| - 1].time;
      } else {
        assert more[i - |taken|].time <= more[j - |taken|].time;
      }
    }
  }

  predicate AllShow(channels: seq<Channel>, taken: seq<seq<Sample>>) {
    |channels| == |taken| && forall i :: 0 <= i < |channels| ==> Shows(channels[i], taken[i])
  }

  function Cleared<T>(n: nat): (r: seq<seq<T>>)
    ensures |r| == n && forall i :: 0 <= i < n ==> r[i] == []
  {
    seq(n, _ => [])
  }

  /** Whether a batch clears all channels before it is added. */
  predicate Clears(before: seq<Sample>, sorted: seq<Sample>, reset: bool) {
    before != [] && reset && StartsOver(sorted, before[|before| - 1].time)
  }

  /** What a batch that clears nothing adds to a channel. */
  function Continued(before: seq<Sample>, sorted: seq<Sample>): seq<Sample> {
    if before == [] then sorted else Added(sorted, before[|before| - 1].time)
  }

  function Emptied(n: nat): (r: seq<Channel>)
    ensures |r| == n && forall i :: 0 <= i < n ==> r[i] == Channel([], 0)
  {
    seq(n, _ => Channel([], 0))
  }

  /** A channel with samples added; the limit is applied only when there are some. */
  function Grown(c: Channel, more: seq<Sample>, limit: nat): Channel {
    if more == [] then c else Trimmed(c.(samples := c.samples + more), limit)
  }

  class Buffer {
    var channels: seq<Channel>
    var historyLimit: nat
    var preservedHistoryLimit: nat
    var maxTotalSamples: nat
    var resetHistoryOnTimeReset: bool
    var historyTrimSuspended: bool
    var historyEpoch: nat
    /** For each channel all samples it took since the last reset. */
    ghost var taken: seq<seq<Sample>>

    ghost predicate Valid()
      reads this
    {
      AllShow(channels, taken)
    }

    constructor ()
      ensures Valid() && channels == [] && resetHistoryOnTimeReset && !historyTrimSuspended
    {
      channels, taken := [], [];
      historyLimit, preservedHistoryLimit, maxTotalSamples, historyEpoch := 0, 0, 0, 0;
      resetHistoryOnTimeReset, historyTrimSuspended := true, false;
    }

    /** The limit a channel is trimmed to; 0 is none. */
    function EffectiveLimit(): nat
      reads this
    {
      var history := if historyLimit == 0 then preservedHistoryLimit else Max(historyLimit, preservedHistoryLimit);
      if historyTrimSuspended then 0
      else if history > 0 && maxTotalSamples > 0 then (if history < maxTotalSamples then history else maxTotalSamples)
      else if history > 0 then history else maxTotalSamples
    }

    /** Trimming to this limit leaves no more than the total and than the greater of the history limit and the
      * preserved one, as far as they are set, and drops no more than that takes; suspended it drops nothing. */
    lemma LimitMeans(c: Channel)
      ensures var kept, wanted := |Trimmed(c, EffectiveLimit()).samples|, Max(historyLimit, preservedHistoryLimit);
        if historyTrimSuspended then kept == |c.samples|
        else
          && (maxTotalSamples > 0 ==> kept <= maxTotalSamples) && (wanted > 0 ==> kept <= wanted)
          && (kept == |c.samples| || (kept < |c.samples| && kept > 0 && (kept == wanted || kept == maxTotalSamples)))
    {
    }

    method ConfigureChannels(count: nat)
      requires Valid()
      modifies `channels, `taken
      ensures Valid() && |channels| == count
      ensures forall i :: 0 <= i < count && i < |old(channels)| ==>
        channels[i] == old(channels)[i] && taken[i] == old(taken)[i]
      ensures forall i :: |old(channels)| <= i < count ==> channels[i] == Channel([], 0) && taken[i] == []
    {
      if count <= |channels| {
        channels, taken := channels[..count], taken[..count];
      } else {
        channels := channels + Emptied(count - |channels|);
        taken := taken + Cleared(count - |taken|);
      }
    }

    method EnsureChannel(index: nat)
      requires Valid()
      modifies `channels, `taken
      ensures Valid() && |channels| == Max(|old(channels)|, index + 1)
      ensures forall i :: 0 <= i < |old(channels)| ==> channels[i] == old(channels)[i] && taken[i] == old(taken)[i]
      ensures forall i :: |old(channels)| <= i < |channels| ==> channels[i] == Channel([], 0) && taken[i] == []
    {
      if index >= |channels| {
        ConfigureChannels(index + 1);
      }
    }

    method TrimHistory(index: nat)
      requires Valid() && index < |channels|
      modifies `channels
      ensures Valid() && channels == old(channels)[index := Trimmed(old(channels)[index], EffectiveLimit())]
    {
      var limit := EffectiveLimit();
      var c := channels[index];
      TrimmedShows(c, taken[index], limit);
      assert channels[index := c] == channels;
      if limit == 0 || |c.samples| <= limit {
        return;
      }
      var keepOffset := |c.samples| - limit;
      channels := channels[index := Channel(c.samples[keepOffset..], c.sampleIndexOffset + keepOffset)];
    }

    /** Suspended trimming takes nothing from any channel; what is over the limit by then goes with the next
      * samples, limit or view configuration. */
    method SetHistoryTrimSuspended(suspended: bool)
      requires Valid()
      modifies `historyTrimSuspended
      ensures Valid() && historyTrimSuspended == suspended
      ensures suspended ==> forall c :: Trimmed(c, EffectiveLimit()) == c
    {
      historyTrimSuspended := suspended;
    }

    /** An imported history is kept from a smaller limit: the limit, where there is one, is never below
      * `count` again until the next reset. */
    method PreserveHistoryLimitAtLeast(count: nat)
      requires Valid()
      modifies `preservedHistoryLimit
      ensures Valid() && preservedHistoryLimit == Max(old(preservedHistoryLimit), count)
      ensures maxTotalSamples == 0 && EffectiveLimit() > 0 ==> EffectiveLimit() >= count
    {
      preservedHistoryLimit := Max(preservedHistoryLimit, count);
    }

    method SetResetHistoryOnTimeReset(enabled: bool)
      requires Valid()
      modifies `resetHistoryOnTimeReset
      ensures Valid() && resetHistoryOnTimeReset == enabled
    {
      resetHistoryOnTimeReset := enabled;
    }

    /** A new view configuration applies to all channels at once. */
    method SetHistoryLimit(limit: nat)
      requires Valid()
      modifies `historyLimit, `channels
      ensures Valid() && historyLimit == limit && |channels| == |old(channels)|
      ensures forall i :: 0 <= i < |channels| ==> channels[i] == Trimmed(old(channels)[i], EffectiveLimit())
    {
      historyLimit := limit;
      TrimAll();
    }

    /** A lower total takes effect at once; no total lets everything stay that is there. */
    method SetMaxTotalSamples(limit: nat)
      requires Valid()
      modifies `maxTotalSamples, `channels
      ensures Valid() && maxTotalSamples == limit && |channels| == |old(channels)|
      ensures if limit == 0 then channels == old(channels)
        else forall i :: 0 <= i < |channels| ==> channels[i] == Trimmed(old(channels)[i], EffectiveLimit())
    {
      maxTotalSamples := limit;
      if limit > 0 {
        TrimAll();
      }
    }

    method TrimAll()
      requires Valid()
      modifies `channels
      ensures Valid() && |channels| == |old(channels)|
      ensures forall i :: 0 <= i < |channels| ==> channels[i] == Trimmed(old(channels)[i], EffectiveLimit())
    {
      for i := 0 to |channels|
        invariant Valid() && |channels| == |old(channels)|
        invariant forall k :: 0 <= k < i ==> channels[k] == Trimmed(old(channels)[k], EffectiveLimit())
        invariant forall k :: i <= k < |channels| ==> channels[k] == old(channels)[k]
      {
        TrimHistory(i);
      }
    }

    /** Adds live samples to a channel.  A batch that starts over either clears every channel first or is
      * moved behind the history; other batches add what is later than the history. */
    method Append(index: nat, request: seq<Sample>) returns (appended: bool)
      requires Valid()
      modifies this
      ensures Valid()
      ensures request == [] ==> !appended && channels == old(channels) && taken == old(taken)
      ensures request != [] ==>
        var sorted := StableSorted(request);
        var wider := old(taken) + Cleared(Max(|old(taken)|, index + 1) - |old(taken)|);
        && |channels| == Max(|old(channels)|, index + 1)
        && (Clears(wider[index], sorted, resetHistoryOnTimeReset) ==>
             taken == Cleared(|channels|)[index := sorted] && historyEpoch == old(historyEpoch) + 1 && appended
             && channels == Emptied(|channels|)[index := Trimmed(Channel(sorted, 0), EffectiveLimit())])
        && (!Clears(wider[index], sorted, resetHistoryOnTimeReset) ==>
             var all := old(channels) + Emptied(|channels| - |old(channels)|);
             taken == wider[index := wider[index] + Continued(wider[index], sorted)]
             && historyEpoch == old(historyEpoch) && appended == (Continued(wider[index], sorted) != [])
             && channels == all[index := Grown(all[index], Continued(wider[index], sorted), EffectiveLimit())])
    {
      hide Shows, Sorted, Later, StableSorted, TimeStep, SameAt, Clears, Continued;
      if request == [] {
        return false;
      }
      EnsureChannel(index);
      assert taken == old(taken) + Cleared(|channels| - |old(taken)|);
      assert channels == old(channels) + Emptied(|channels| - |old(channels)|);
      StableSame(request);
      SortedNonempty(request);
      appended := AppendSorted(index, StableSorted(request));
    }

    method AppendSorted(index: nat, sorted: seq<Sample>) returns (appended: bool)
      requires Valid() && index < |channels| && Sorted(sorted) && sorted != []
      modifies `channels, `taken, `historyEpoch, `preservedHistoryLimit
      ensures Valid() && |channels| == |old(channels)|
      ensures Clears(old(taken)[index], sorted, resetHistoryOnTimeReset) ==>
        taken == Cleared(|channels|)[index := sorted] && historyEpoch == old(historyEpoch) + 1 && appended
        && channels == Emptied(|channels|)[index := Trimmed(Channel(sorted, 0), EffectiveLimit())]
      ensures !Clears(old(taken)[index], sorted, resetHistoryOnTimeReset) ==>
        && taken == old(taken)[index := old(taken)[index] + Continued(old(taken)[index], sorted)]
        && historyEpoch == old(historyEpoch) && appended == (Continued(old(taken)[index], sorted) != [])
        && channels == old(channels)[index :=
             Grown(old(channels)[index], Continued(old(taken)[index], sorted), EffectiveLimit())]
    {
      hide Shows, Sorted, Later, TimeStep;
      ShownEnd(channels[index], taken[index]);
      var samples, shown := sorted, channels[index].samples;
      if shown != [] {
        var lastTime := shown[|shown| - 1].time;
        AddedSamples(samples, lastTime);
        if StartsOver(samples, lastTime) {
          if resetHistoryOnTimeReset {
            AppendAfterHistoryReset(index, samples);
            return true;
          }
          var step := EstimateTimeStep(samples);
          samples := Shifted(samples, lastTime + step - samples[0].time);
        }
        samples := DropSamplesNotAfterLastTime(samples, lastTime);
      }
      appended := AppendPreparedSamples(index, samples);
    }

    method AppendAfterHistoryReset(index: nat, samples: seq<Sample>)
      requires Valid() && index < |channels| && Sorted(samples) && samples != []
      modifies `channels, `taken, `historyEpoch, `preservedHistoryLimit
      ensures Valid() && |channels| == |old(channels)|
      ensures taken == Cleared(|channels|)[index := samples]
      ensures historyEpoch == old(historyEpoch) + 1 && preservedHistoryLimit == 0
      ensures channels == Emptied(|channels|)[index := Trimmed(Channel(samples, 0), EffectiveLimit())]
    {
      historyEpoch := historyEpoch + 1;
      channels := Emptied(|channels|);
      taken := Cleared(|channels|);
      preservedHistoryLimit := 0;
      var appended := AppendPreparedSamples(index, samples);
      assert [] + samples == samples;
    }

    method AppendPreparedSamples(index: nat, samples: seq<Sample>) returns (appended: bool)
      requires Valid() && index < |channels| && Sorted(samples)
      requires taken[index] != [] ==> forall s :: s in samples ==> s.time > taken[index][|taken[index]| - 1].time
      modifies `channels, `taken
      ensures Valid() && |channels| == |old(channels)| && appended == (samples != [])
      ensures taken == old(taken)[index := old(taken)[index] + samples]
      ensures channels == old(channels)[index := Grown(old(channels)[index], samples, EffectiveLimit())]
    {
      hide Shows, Sorted, Trimmed;
      if samples == [] {
        assert taken[index] + samples == taken[index];
        assert channels[index := channels[index]] == channels && taken[index := taken[index]] == taken;
        return false;
      }
      var c := channels[index];
      GrownShows(c, taken[index], samples);
      taken := taken[index := taken[index] + samples];
      channels := channels[index := c.(samples := c.samples + samples)];
      TrimHistory(index);
      ghost var grown := Trimmed(c.(samples := c.samples + samples), EffectiveLimit());
      assert channels == old(channels)[index := grown];
      appended := true;
    }
  }

  method DropSamplesNotAfterLastTime(samples: seq<Sample>, last: real) returns (left: seq<Sample>)
    ensures left == Later(samples, last)
  {
    hide Later;
    left := [];
    LaterEnds(samples, last);
    for i := 0 to |samples|
      invariant left + Later(samples[i..], last) == Later(samples, last)
    {
      LaterStep(samples, i, last, left);
      if samples[i].time > last {
        left := left + [samples[i]];
      }
    }
  }

  lemma LaterEnds(samples: seq<Sample>, last: real)
    ensures [] + Later(samples[0..], last) == Later(samples, last)
    ensures Later(samples[|samples|..], last) == []
  {
    assert samples[0..] == samples;
  }

  lemma LaterStep(samples: seq<Sample>, i: nat, last: real, left: seq<Sample>)
    requires i < |samples|
    ensures left + Later(samples[i..], last)
         == left + (if samples[i].time > last then [samples[i]] else []) + Later(samples[i + 1..], last)
  {
    assert samples[i..][1..] == samples[i + 1..];
    Assoc(left, if samples[i].time > last then [samples[i]] else [], Later(samples[i + 1..], last));
  }

  lemma ShownEnd(c: Channel, taken: seq<Sample>)
    requires Shows(c, taken)
    ensures c.samples == [] <==> taken == []
    ensures c.samples != [] ==> c.samples[|c.samples| - 1] == taken[|taken| - 1]
  {
  }

  lemma SortedNonempty(s: seq<Sample>)
    ensures s != [] ==> StableSorted(s) != []
  {
    if s != [] {
      PlaceSome(StableSorted(s[..|s| - 1]), s[|s| - 1]);
    }
  }

  lemma PlaceSome(s: seq<Sample>, x: Sample)
    ensures Place(s, x) != []
  {
  }

  // ---------------------------------------------------------------- searching

  method LowerBoundByTime(samples: seq<Sample>, time: real) returns (index: nat)
    requires Sorted(samples)
    ensures index <= |samples|
    ensures forall i :: 0 <= i < index ==> samples[i].time < time
    ensures forall i :: index <= i < |samples| ==> time <= samples[i].time
  {
    var low, high := 0, |samples|;
    while low < high
      invariant 0 <= low <= high <= |samples|
      invariant forall i :: 0 <= i < low ==> samples[i].time < time
      invariant forall i :: high <= i < |samples| ==> time <= samples[i].time
    {
      var middle := (low + high) / 2;
      if samples[middle].time < time {
        low := middle + 1;
      } else {
        high := middle;
      }
    }
    index := low;
  }

  method UpperBoundByTime(samples: seq<Sample>, time: real) returns (index: nat)
    requires Sorted(samples)
    ensures index <= |samples|
    ensures forall i :: 0 <= i < index ==> samples[i].time <= time
    ensures forall i :: index <= i < |samples| ==> time < samples[i].time
  {
    var low, high := 0, |samples|;
    while low < high
      invariant 0 <= low <= high <= |samples|
      invariant forall i :: 0 <= i < low ==> samples[i].time <= time
      invariant forall i :: high <= i < |samples| ==> time < samples[i].time
    {
      var middle := (low + high) / 2;
      if time < samples[middle].time {
        high := middle;
      } else {
        low := middle + 1;
      }
    }
    index := low;
  }

  function Distance(a: real, b: real): real {
    if a < b then b - a else a - b
  }

  const NEARBY: nat := 16

  /** Looks at sixteen samples on either side of the place of `time`.  That is enough: the sample found is as
    * near as any sample of the whole history, the first such, and one is found whenever one is near enough. */
  method FindNearestByTime(samples: seq<Sample>, time: real, maxTimeDistance: real) returns (best: Option<nat>)
    requires Sorted(samples)
    ensures best.Some? <==> exists i :: 0 <= i < |samples| && Distance(samples[i].time, time) <= maxTimeDistance
    ensures best.Some? ==>
      && best.value < |samples| && Distance(samples[best.value].time, time) <= maxTimeDistance
      && (forall i :: 0 <= i < |samples| ==>
           Distance(samples[best.value].time, time) <= Distance(samples[i].time, time))
  {
    best := None;
    if samples == [] {
      return;
    }
    var pivot := LowerBoundByTime(samples, time);
    var begin := if pivot > NEARBY then pivot - NEARBY else 0;
    var end := if |samples| < pivot + NEARBY then |samples| else pivot + NEARBY;
    for index := begin to end
      invariant best.Some? ==>
        && begin <= best.value < index && Distance(samples[best.value].time, time) <= maxTimeDistance
      invariant forall i :: begin <= i < index ==>
        if best.Some? then Distance(samples[best.value].time, time) <= Distance(samples[i].time, time)
        else Distance(samples[i].time, time) > maxTimeDistance
    {
      var dt := Distance(samples[index].time, time);
      if dt > maxTimeDistance || (best.Some? && dt >= Distance(samples[best.value].time, time)) {
        continue;
      }
      best := Some(index);
    }
    WindowSuffices(samples, time, pivot, begin, end);
    forall i: nat | i < |samples|
      ensures if best.Some? then Distance(samples[best.value].time, time) <= Distance(samples[i].time, time)
              else Distance(samples[i].time, time) > maxTimeDistance
    {
      assert MatchedIn(samples, time, begin, end, i);
      var k :| begin <= k < end && Distance(samples[k].time, time) <= Distance(samples[i].time, time);
    }
  }

  ghost predicate MatchedIn(samples: seq<Sample>, time: real, begin: nat, end: nat, i: nat)
    requires i < |samples| && end <= |samples|
  {
    exists k :: begin <= k < end && Distance(samples[k].time, time) <= Distance(samples[i].time, time)
  }

  /** A sample outside the window is no nearer than the one next to the pivot on its side. */
  lemma WindowSuffices(samples: seq<Sample>, time: real, pivot: nat, begin: nat, end: nat)
    requires Sorted(samples) && pivot <= |samples|
    requires forall i :: 0 <= i < pivot ==> samples[i].time < time
    requires forall i :: pivot <= i < |samples| ==> time <= samples[i].time
    requires begin == if pivot > NEARBY then pivot - NEARBY else 0
    requires end == if |samples| < pivot + NEARBY then |samples| else pivot + NEARBY
    ensures forall i: nat :: i < |samples| ==> MatchedIn(samples, time, begin, end, i)
  {
    forall i: nat | i < |samples| ensures MatchedIn(samples, time, begin, end, i) {
      var k := if i < pivot then pivot - 1 else pivot;
      assert i < k ==> samples[i].time <= samples[k].time;
      assert k < i ==> samples[k].time <= samples[i].time;
      assert begin <= k < end && Distance(samples[k].time, time) <= Distance(samples[i].time, time);
    }
  }

  /** The window of samples to draw: all that are visible, and one neighbour on either side if there is one. */
  method VisibleWindow(samples: seq<Sample>, minTime: real, maxTime: real) returns (begin: nat, end: nat)
    requires Sorted(samples)
    ensures begin <= |samples| && end <= |samples|
    ensures var low := if maxTime < minTime then maxTime else minTime;
      && (begin > 0 ==> begin < |samples| && samples[begin].time < low)
      && (forall i :: begin < i < |samples| ==> low <= samples[i].time)
    ensures var high := if maxTime < minTime then minTime else maxTime;
      && (end < |samples| ==> end > 0 && samples[end - 1].time > high)
      && (forall i :: 0 <= i < end - 1 ==> samples[i].time <= high)
  {
    var low, high := minTime, maxTime;
    if high < low {
      low, high := high, low;
    }
    begin := LowerBoundByTime(samples, low);
    end := UpperBoundByTime(samples, high);
    if begin > 0 {
      begin := begin - 1;
    }
    if end < |samples| {
      end := end + 1;
    }
  }

  // ---------------------------------------------------------------- the envelope

  datatype Point = Point(time: real, minValue: real, maxValue: real, sampleCount: nat)

  /** The smallest and the largest displayed value of a stretch of samples. */
  ghost predicate Extremes(samples: seq<Sample>, from: nat, to: nat, display: real -> real, low: real, high: real)
    requires from <= to <= |samples|
  {
    && (forall i :: from <= i < to ==> low <= display(samples[i].value) <= high)
    && (exists i :: from <= i < to && display(samples[i].value) == low)
    && (exists i :: from <= i < to && display(samples[i].value) == high)
  }

  function TimeSum(samples: seq<Sample>): real {
    if samples == [] then 0.0 else TimeSum(samples[..|samples| - 1]) + samples[|samples| - 1].time
  }

  /** A point stands for the stretch from `from` to `to`. */
  ghost predicate StandsFor(p: Point, samples: seq<Sample>, from: nat, to: nat, display: real -> real) {
    && from < to <= |samples|
    && p.sampleCount == to - from
    && Extremes(samples, from, to, display, p.minValue, p.maxValue)
    && p.time * (to - from) as real == TimeSum(samples[from..to])
  }

  /** The points cover the samples from `begin` to `end`, each sample by exactly one point, in order. */
  ghost predicate Covers(points: seq<Point>, cuts: seq<nat>, samples: seq<Sample>, begin: nat, end: nat,
                         display: real -> real)
  {
    && |cuts| == |points| + 1 && cuts[0] == begin && cuts[|points|] == end
    && forall k :: 0 <= k < |points| ==> StandsFor(points[k], samples, cuts[k], cuts[k + 1], display)
  }

  /** The whole of a covered stretch keeps its extremes: no peak is lost, and none is made up. */
  lemma CoverKeepsExtremes(points: seq<Point>, cuts: seq<nat>, samples: seq<Sample>, begin: nat, end: nat,
                           display: real -> real, i: nat)
    requires Covers(points, cuts, samples, begin, end, display)
    requires begin <= i < end <= |samples|
    ensures exists k :: 0 <= k < |points| && points[k].minValue <= display(samples[i].value) <= points[k].maxValue
    ensures forall k :: 0 <= k < |points| ==>
      && (exists j :: begin <= j < end && display(samples[j].value) == points[k].maxValue)
      && (exists j :: begin <= j < end && display(samples[j].value) == points[k].minValue)
  {
    var k := PointOf(points, cuts, samples, begin, end, display, i);
    forall k | 0 <= k < |points|
      ensures exists j :: begin <= j < end && display(samples[j].value) == points[k].maxValue
      ensures exists j :: begin <= j < end && display(samples[j].value) == points[k].minValue
    {
      CutsOrdered(points, cuts, samples, begin, end, display, k);
      assert StandsFor(points[k], samples, cuts[k], cuts[k + 1], display);
      var j :| cuts[k] <= j < cuts[k + 1] && display(samples[j].value) == points[k].maxValue;
      var l :| cuts[k] <= l < cuts[k + 1] && display(samples[l].value) == points[k].minValue;
    }
  }

  lemma {:induction false} CutsOrdered(points: seq<Point>, cuts: seq<nat>, samples: seq<Sample>, begin: nat, end: nat,
                                       display: real -> real, k: nat)
    requires Covers(points, cuts, samples, begin, end, display) && k < |points|
    ensures begin <= cuts[k] < cuts[k + 1] <= end
  {
    var low := k;
    while low > 0
      invariant 0 <= low <= k && cuts[low] <= cuts[k]
    {
      assert StandsFor(points[low - 1], samples, cuts[low - 1], cuts[low], display);
      low := low - 1;
    }
    assert StandsFor(points[k], samples, cuts[k], cuts[k + 1], display);
    var high := k + 1;
    while high < |points|
      invariant k + 1 <= high <= |points| && cuts[k + 1] <= cuts[high]
    {
      assert StandsFor(points[high], samples, cuts[high], cuts[high + 1], display);
      high := high + 1;
    }
  }

  /** The point that stands for a sample. */
  lemma PointOf(points: seq<Point>, cuts: seq<nat>, samples: seq<Sample>, begin: nat, end: nat,
                display: real -> real, i: nat) returns (k: nat)
    requires Covers(points, cuts, samples, begin, end, display)
    requires begin <= i < end <= |samples|
    ensures k < |points| && cuts[k] <= i < cuts[k + 1]
    ensures points[k].minValue <= display(samples[i].value) <= points[k].maxValue
  {
    k := 0;
    while cuts[k + 1] <= i
      invariant k < |points| && cuts[k] <= i
      decreases |points| - k
    {
      k := k + 1;
    }
    assert StandsFor(points[k], samples, cuts[k], cuts[k + 1], display);
  }

  /** One point for each sample. */
  method SinglePoints(samples: seq<Sample>, begin: nat, end: nat, display: real -> real)
    returns (points: seq<Point>, ghost cuts: seq<nat>)
    requires begin <= end <= |samples|
    ensures Covers(points, cuts, samples, begin, end, display)
    ensures |points| == end - begin
  {
    points, cuts := [], [begin];
    for index := begin to end
      invariant |points| == index - begin
      invariant Covers(points, cuts, samples, begin, index, display)
    {
      var value := display(samples[index].value);
      var p := Point(samples[index].time, value, value, 1);
      SingleStands(p, samples, index, display);
      CoverGrows(points, cuts, samples, begin, index, display, p, index + 1);
      points := points + [p];
      cuts := cuts + [index + 1];
    }
  }

  lemma SingleStands(p: Point, samples: seq<Sample>, index: nat, display: real -> real)
    requires index < |samples|
    requires p == Point(samples[index].time, display(samples[index].value), display(samples[index].value), 1)
    ensures StandsFor(p, samples, index, index + 1, display)
  {
    assert samples[index..index + 1] == [samples[index]];
    assert [samples[index]][..0] == [];
    assert TimeSum(samples[index..index + 1]) == 0.0 + samples[index].time;
  }

  lemma CoverNothing(samples: seq<Sample>, at: nat, display: real -> real)
    ensures Covers([], [at], samples, at, at, display)
  {
  }

  lemma CoverGrows(points: seq<Point>, cuts: seq<nat>, samples: seq<Sample>, begin: nat, end: nat,
                   display: real -> real, p: Point, next: nat)
    requires Covers(points, cuts, samples, begin, end, display)
    requires StandsFor(p, samples, end, next, display)
    ensures Covers(points + [p], cuts + [next], samples, begin, next, display)
  {
    hide StandsFor;
    var ps, cs := points + [p], cuts + [next];
    forall k | 0 <= k < |ps| ensures StandsFor(ps[k], samples, cs[k], cs[k + 1], display) {
      if k < |points| {
        assert cs[k] == cuts[k] && cs[k + 1] == cuts[k + 1];
      }
    }
  }

  function BucketEdge(from: real, span: real, count: nat, index: nat): real
    requires count > 0
  {
    from + span * index as real / count as real
  }

  /** The envelope of the samples between two times, in at most about two points for each pixel.  Few samples
    * are drawn one by one; many are put into one bucket for each pixel.  Either way the points cover the
    * latest `maxSamples` visible samples, each sample in exactly one point, with exact extremes. */
  method BuildLimitedEnvelope(samples: seq<Sample>, minTime: real, maxTime: real, pixelWidth: nat, maxSamples: nat,
                              display: real -> real)
    returns (points: seq<Point>, sourceSampleCount: nat, ghost cuts: seq<nat>, ghost first: nat, ghost end: nat)
    requires Sorted(samples)
    ensures pixelWidth == 0 ==> points == [] && sourceSampleCount == 0
    ensures pixelWidth > 0 ==>
      && Visible(samples, minTime, maxTime, first, end) && sourceSampleCount == end - first
      && Covers(points, cuts, samples, Latest(first, end, maxSamples), end, display)
    ensures pixelWidth > 0 ==>
      var count, span := end - Latest(first, end, maxSamples), Span(minTime, maxTime);
      if count <= 2 * pixelWidth then |points| == count
      else |points| <= pixelWidth && Narrow(cuts, samples, span / pixelWidth as real)
  {
    hide Covers, Narrow, StandsFor, Sorted;
    points, sourceSampleCount, cuts, first, end := [], 0, [0], 0, 0;
    CoverNothing(samples, 0, display);
    if pixelWidth == 0 || samples == [] {
      return;
    }
    var low, high := minTime, maxTime;
    if high < low {
      low, high := high, low;
    }
    var from := LowerBoundByTime(samples, low);
    var to := UpperBoundByTime(samples, high);
    BoundsOrdered(samples, low, high, from, to);
    first, end := from, to;
    assert Visible(samples, minTime, maxTime, first, end);
    if from >= to {
      cuts := [to];
      CoverNothing(samples, to, display);
      return;
    }
    sourceSampleCount := to - from;
    if maxSamples > 0 && sourceSampleCount > maxSamples {
      from := to - maxSamples;
    }
    if to - from <= pixelWidth * 2 {
      points, cuts := SinglePoints(samples, from, to, display);
      return;
    }
    var span := if high - low > EPSILON then high - low else EPSILON;
    points, cuts := Buckets(samples, from, to, low, span, pixelWidth, display);
  }

  /** The time the buckets share, which is never nothing. */
  function Span(minTime: real, maxTime: real): real {
    var width := if maxTime < minTime then minTime - maxTime else maxTime - minTime;
    if width > EPSILON then width else EPSILON
  }

  /** The samples between two cuts are close together in time. */
  ghost predicate Narrow(cuts: seq<nat>, samples: seq<Sample>, width: real) {
    forall i, j :: 0 <= i < j < |cuts| && j == i + 1 ==>
      cuts[i] < cuts[j] <= |samples| && samples[cuts[j] - 1].time - samples[cuts[i]].time <= width
  }

  lemma NarrowStart(begin: nat, samples: seq<Sample>, width: real)
    ensures Narrow([begin], samples, width)
  {
  }

  lemma NarrowGrows(cuts: seq<nat>, samples: seq<Sample>, width: real, next: nat)
    requires Narrow(cuts, samples, width) && cuts != []
    requires var last := cuts[|cuts| - 1];
      last < next <= |samples| && samples[next - 1].time - samples[last].time <= width
    ensures Narrow(cuts + [next], samples, width)
  {
  }

  /** Where the latest `maxSamples` of the visible samples begin; 0 stands for all of them. */
  function Latest(first: nat, end: nat, maxSamples: nat): nat
    requires first <= end
  {
    if maxSamples > 0 && end - first > maxSamples then end - maxSamples else first
  }

  /** The samples a time window selects. */
  ghost predicate Visible(samples: seq<Sample>, minTime: real, maxTime: real, first: nat, end: nat) {
    var low, high := if maxTime < minTime then maxTime else minTime, if maxTime < minTime then minTime else maxTime;
    && first <= end <= |samples|
    && forall i :: 0 <= i < |samples| ==> (low <= samples[i].time <= high <==> first <= i < end)
  }

  lemma BoundsOrdered(samples: seq<Sample>, low: real, high: real, first: nat, end: nat)
    requires Sorted(samples) && low <= high && first <= |samples| && end <= |samples|
    requires forall i :: 0 <= i < first ==> samples[i].time < low
    requires forall i :: first <= i < |samples| ==> low <= samples[i].time
    requires forall i :: 0 <= i < end ==> samples[i].time <= high
    requires forall i :: end <= i < |samples| ==> high < samples[i].time
    ensures first <= end
  {
    var t := if end < |samples| then samples[end].time else high;
  }

  /** One bucket for each pixel; a bucket without samples gives no point. */
  method Buckets(samples: seq<Sample>, begin: nat, end: nat, from: real, span: real, bucketCount: nat,
                 display: real -> real)
    returns (points: seq<Point>, ghost cuts: seq<nat>)
    requires begin <= end <= |samples| && bucketCount > 0 && span > 0.0
    requires forall i :: begin <= i < end ==> from <= samples[i].time <= from + span
    requires Sorted(samples)
    ensures Covers(points, cuts, samples, begin, end, display)
    ensures |points| <= bucketCount && Narrow(cuts, samples, span / bucketCount as real)
  {
    hide StandsFor, Narrow, BucketEdge;
    points, cuts := [], [begin];
    NarrowStart(begin, samples, span / bucketCount as real);
    var cursor := begin;
    var bucketIndex := 0;
    EdgeStart(from, span, bucketCount);
    ghost var last := if begin < end then samples[end - 1].time else from;
    while bucketIndex < bucketCount && cursor < end
      invariant begin <= cursor <= end && bucketIndex <= bucketCount && |points| <= bucketIndex
      invariant Covers(points, cuts, samples, begin, cursor, display)
      invariant Narrow(cuts, samples, span / bucketCount as real)
      invariant forall i :: cursor <= i < end ==>
        if bucketIndex == 0 then BucketEdge(from, span, bucketCount, 0) <= samples[i].time
        else BucketEdge(from, span, bucketCount, bucketIndex) < samples[i].time
    {
      var bucketStart := BucketEdge(from, span, bucketCount, bucketIndex);
      var bucketEnd := BucketEdge(from, span, bucketCount, bucketIndex + 1);
      ghost var start := cursor;
      var count, p;
      cursor, count, p := OneBucket(samples, cursor, end, bucketStart, bucketEnd, display);
      if count > 0 {
        CoverGrows(points, cuts, samples, begin, start, display, p, cursor);
        EdgeWidth(from, span, bucketCount, bucketIndex);
        assert samples[cursor - 1].time <= bucketEnd && bucketStart <= samples[start].time;
        NarrowGrows(cuts, samples, span / bucketCount as real, cursor);
        points := points + [p];
        cuts := cuts + [cursor];
      }
      bucketIndex := bucketIndex + 1;
    }
  }

  lemma EdgeWidth(from: real, span: real, count: nat, index: nat)
    requires count > 0
    ensures BucketEdge(from, span, count, index + 1) - BucketEdge(from, span, count, index) == span / count as real
  {
    var n, i := count as real, index as real;
    calc {
      span * (i + 1.0) / n - span * i / n;
      (span * i + span) / n - span * i / n;
      span * i / n + span / n - span * i / n;
      span / n;
    }
  }

  lemma EdgeStart(from: real, span: real, count: nat)
    requires count > 0
    ensures BucketEdge(from, span, count, 0) == from && BucketEdge(from, span, count, count) == from + span
  {
  }

  /** The samples of one bucket: those from `cursor` on that are not later than its end. */
  method OneBucket(samples: seq<Sample>, start: nat, end: nat, bucketStart: real, bucketEnd: real,
                   display: real -> real)
    returns (cursor: nat, count: nat, p: Point)
    requires start < end <= |samples| && Sorted(samples)
    requires forall i :: start <= i < end ==> bucketStart <= samples[i].time
    ensures start <= cursor <= end && count == cursor - start
    ensures forall i :: start <= i < cursor ==> bucketStart <= samples[i].time <= bucketEnd
    ensures forall i :: cursor <= i < end ==> bucketEnd < samples[i].time
    ensures count > 0 ==> StandsFor(p, samples, start, cursor, display)
  {
    hide TimeSum, Extremes, Sorted;
    var minValue, maxValue, timeAccumulator := 0.0, 0.0, 0.0;
    cursor, count := start, 0;
    NoTime(samples, start);
    while cursor < end
      invariant start <= cursor <= end && count == cursor - start
      invariant forall i :: start <= i < cursor ==> samples[i].time <= bucketEnd
      invariant timeAccumulator == TimeSum(samples[start..cursor])
      invariant count > 0 ==> Extremes(samples, start, cursor, display, minValue, maxValue)
    {
      var sample := samples[cursor];
      if sample.time > bucketEnd && count > 0 {
        break;
      }
      if bucketStart <= sample.time <= bucketEnd {
        var displayValue := display(sample.value);
        ExtremesGrow(samples, start, cursor, display, minValue, maxValue);
        TimeGrows(samples, start, cursor);
        minValue := if count == 0 || displayValue < minValue then displayValue else minValue;
        maxValue := if count == 0 || displayValue > maxValue then displayValue else maxValue;
        timeAccumulator := timeAccumulator + sample.time;
        count := count + 1;
      }
      if sample.time > bucketEnd {
        break;
      }
      cursor := cursor + 1;
    }
    RestIsLater(samples, cursor, end, bucketEnd);
    p := Point(0.0, minValue, maxValue, count);
    if count > 0 {
      Mean(timeAccumulator, count);
      p := p.(time := timeAccumulator / count as real);
    }
  }

  lemma RestIsLater(samples: seq<Sample>, cursor: nat, end: nat, bucketEnd: real)
    requires cursor <= end <= |samples| && Sorted(samples)
    ensures cursor < end && samples[cursor].time > bucketEnd ==>
      forall i :: cursor <= i < end ==> bucketEnd < samples[i].time
  {
  }

  lemma Mean(sum: real, n: nat)
    requires n > 0
    ensures sum / n as real * n as real == sum
  {
  }

  lemma NoTime(samples: seq<Sample>, at: nat)
    requires at <= |samples|
    ensures TimeSum(samples[at..at]) == 0.0
  {
    assert samples[at..at] == [];
  }

  lemma TimeGrows(samples: seq<Sample>, from: nat, to: nat)
    requires from <= to < |samples|
    ensures TimeSum(samples[from..to + 1]) == TimeSum(samples[from..to]) + samples[to].time
  {
    assert samples[from..to + 1][..to - from] == samples[from..to];
  }

  lemma ExtremesGrow(samples: seq<Sample>, from: nat, to: nat, display: real -> real, low: real, high: real)
    requires from <= to < |samples|
    requires from < to ==> Extremes(samples, from, to, display, low, high)
    ensures var v := display(samples[to].value);
      Extremes(samples, from, to + 1, display, if from == to || v < low then v else low,
               if from == to || v > high then v else high)
  {
    if from < to {
      var i :| from <= i < to && display(samples[i].value) == low;
      var j :| from <= j < to && display(samples[j].value) == high;
      assert from <= i < to + 1 && from <= j < to + 1;
    }
    assert display(samples[to].value) == display(samples[to].value);
  }
}
