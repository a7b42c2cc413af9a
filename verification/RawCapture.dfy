/** The log of raw traffic kept beside the live view: received and sent bytes interleaved with the
  * profile and plot events a replay needs.  Its oldest bytes are cut off when it outgrows its budget. */
module RawCapture {
  import opened Basics
  import opened Bytes

  datatype Kind = RxBytes | TxBytes | ProfileSet | ProfileClear | PlotSetup

  datatype Profile = Profile(frameName: string, length: nat, channelMap: seq<string>)

  datatype Event = Event(
    kind: Kind, timestampMs: nat, bytes: seq<byte>, profile: Profile, plotSetup: seq<string>,
    endpoint: string, sequence: nat)
  {
    /** Whether the event's bytes count against the window. */
    predicate Counted(includeTx: bool) {
      kind.RxBytes? || (includeTx && kind.TxBytes?)
    }
  }

  /** What a replay has been told before a byte arrives: the profile in force for each frame, in the
    * order they were last set, and the latest plot setup. */
  datatype Setting = Setting(profiles: seq<Event>, plot: Option<Event>)

  const START := Setting([], None)

  /** The profiles that are not for `frame`. */
  function Without(profiles: seq<Event>, frame: string): seq<Event> {
    if profiles == [] then []
    else if profiles[0].profile.frameName == frame then Without(profiles[1..], frame)
    else [profiles[0]] + Without(profiles[1..], frame)
  }

  /** The replay's setting after one event. */
  function Applied(s: Setting, e: Event): Setting {
    match e.kind
    case ProfileClear =>
      if e.profile.frameName == "" then s.(profiles := [])
      else s.(profiles := Without(s.profiles, e.profile.frameName))
    case ProfileSet => s.(profiles := Without(s.profiles, e.profile.frameName) + [e])
    case PlotSetup => s.(plot := Some(e))
    case _ => s
  }

  function Replayed(events: seq<Event>, s: Setting): Setting {
    if events == [] then s else Replayed(events[1..], Applied(s, events[0]))
  }

  /** A byte as the replay meets it: which way it went and under which setting. */
  datatype Met = Met(value: byte, kind: Kind, setting: Setting)

  function Marked(bytes: seq<byte>, kind: Kind, s: Setting): (r: seq<Met>)
    ensures |r| == |bytes|
    ensures forall i :: 0 <= i < |r| ==> r[i] == Met(bytes[i], kind, s)
  {
    seq(|bytes|, i requires 0 <= i < |bytes| => Met(bytes[i], kind, s))
  }

  /** Every counted byte in order, each with the setting it is replayed under. */
  function Meaning(events: seq<Event>, s: Setting, includeTx: bool): seq<Met> {
    if events == [] then []
    else
      var e := events[0];
      (if e.Counted(includeTx) then Marked(e.bytes, e.kind, s) else [])
      + Meaning(events[1..], Applied(s, e), includeTx)
  }

  /** The number of counted bytes. */
  function Total(events: seq<Event>, includeTx: bool): nat {
    if events == [] then 0
    else (if events[0].Counted(includeTx) then |events[0].bytes| else 0) + Total(events[1..], includeTx)
  }

  /** The received bytes of the log, joined. */
  function Received(events: seq<Event>): seq<byte> {
    if events == [] then []
    else (if events[0].kind.RxBytes? then events[0].bytes else []) + Received(events[1..])
  }

  /** How much of the cut is left after an event of this many bytes. */
  function Rest(cut: nat, size: nat): nat {
    if size <= cut then cut - size else 0
  }

  /** What remains of the events once the first `cut` counted bytes are gone.  A control event goes with
    * the bytes after it, so one lying exactly on the cut remains; byte events left empty do not. */
  function Kept(events: seq<Event>, cut: nat, includeTx: bool): seq<Event> {
    if events == [] then []
    else
      var e, rest := events[0], events[1..];
      if !e.Counted(includeTx) then
        if cut > 0 then Kept(rest, cut, includeTx) else [e] + Kept(rest, 0, includeTx)
      else if |e.bytes| <= cut || e.bytes == [] then Kept(rest, Rest(cut, |e.bytes|), includeTx)
      else [e.(bytes := e.bytes[cut..])] + Kept(rest, 0, includeTx)
  }

  /** The setting the events cut off leave behind. */
  function Carried(events: seq<Event>, cut: nat, s: Setting, includeTx: bool): Setting {
    if events == [] then s
    else
      var e, rest := events[0], events[1..];
      if !e.Counted(includeTx) then
        if cut > 0 then Carried(rest, cut, Applied(s, e), includeTx) else Carried(rest, 0, s, includeTx)
      else Carried(rest, Rest(cut, |e.bytes|), s, includeTx)
  }

  /** The events that bring a replay from the start to `s`. */
  function Reinstated(s: Setting): seq<Event> {
    s.profiles + (if s.plot.Some? then [s.plot.value] else [])
  }

  function Trimmed(events: seq<Event>, cut: nat, includeTx: bool): seq<Event> {
    Reinstated(Carried(events, cut, START, includeTx)) + Kept(events, cut, includeTx)
  }

  // ---------------------------------------------------------------- the profile in force

  /** The event ends what was set for `frame` before: by another profile for it, by clearing it, or by clearing all. */
  predicate Unsets(e: Event, frame: string) {
    || (e.kind.ProfileSet? && e.profile.frameName == frame)
    || (e.kind.ProfileClear? && (e.profile.frameName == frame || e.profile.frameName == ""))
  }

  /** Event `k` of the log set a profile that nothing after it has ended. */
  predicate InForce(log: seq<Event>, k: nat) {
    && k < |log| && log[k].kind.ProfileSet?
    && forall m :: k < m < |log| ==> !Unsets(log[m], log[k].profile.frameName)
  }

  /** Event `k` is the last of the log's plot setups. */
  predicate LastPlot(log: seq<Event>, k: nat) {
    k < |log| && log[k].kind.PlotSetup? && forall m :: k < m < |log| ==> !log[m].kind.PlotSetup?
  }

  lemma OneMoreProfile(log: seq<Event>, e: Event, k: nat)
    ensures InForce(log + [e], k) <==>
      if k == |log| then e.kind.ProfileSet?
      else InForce(log, k) && !Unsets(e, log[k].profile.frameName)
    ensures LastPlot(log + [e], k) <==>
      if k == |log| then e.kind.PlotSetup? else LastPlot(log, k) && !e.kind.PlotSetup?
    ensures InForce(log, k) || LastPlot(log, k) ==> k < |log|
  {
    var more := log + [e];
    assert forall m :: 0 <= m < |log| ==> more[m] == log[m];
    assert more[|log|] == e;
  }

  lemma SettingSnoc(log: seq<Event>, e: Event)
    ensures Replayed(log + [e], START) == Applied(Replayed(log, START), e)
  {
    MeaningConcat(log, [e], START, true);
    assert [e][1..] == [];
  }

  lemma {:induction false} WithoutHas(profiles: seq<Event>, frame: string, x: Event)
    ensures x in Without(profiles, frame) <==> x in profiles && x.profile.frameName != frame
  {
    if profiles != [] {
      WithoutHas(profiles[1..], frame, x);
      assert profiles == [profiles[0]] + profiles[1..];
    }
  }

  /** One event more leaves the profiles it does not end, and adds its own. */
  lemma AppliedHas(s: Setting, e: Event, x: Event)
    ensures x in Applied(s, e).profiles <==>
      (e.kind.ProfileSet? && x == e) || (x in s.profiles && !Unsets(e, x.profile.frameName))
  {
    WithoutHas(s.profiles, e.profile.frameName, x);
  }

  /** After a replay of the log a profile is in force exactly if some event set it and none after that set another
    * for its frame, cleared it or cleared all. */
  lemma {:induction false} ProfileInForce(log: seq<Event>, e: Event)
    ensures e in Replayed(log, START).profiles <==> exists k: nat :: InForce(log, k) && log[k] == e
    decreases |log|
  {
    if log != [] {
      var before, last := log[..|log| - 1], log[|log| - 1];
      assert log == before + [last];
      ProfileInForce(before, e);
      SettingSnoc(before, last);
      AppliedHas(Replayed(before, START), last, e);
      hide LastPlot, InForce, Applied, Unsets;
      OneMoreProfile(before, last, |before|);
      if k: nat :| InForce(log, k) && log[k] == e {
        OneMoreProfile(before, last, k);
      }
      if k: nat :| InForce(before, k) && before[k] == e {
        OneMoreProfile(before, last, k);
      }
    }
  }

  /** Two profiles of the list stand in the order their events were set. */
  ghost predicate SetBefore(log: seq<Event>, x: Event, y: Event) {
    forall k: nat, l: nat :: k < |log| && l < |log| && InForce(log, k) && log[k] == x && InForce(log, l) && log[l] == y
      ==> k < l
  }

  lemma {:induction false} WithoutOrder(profiles: seq<Event>, frame: string, i: nat, j: nat) returns (k: nat, l: nat)
    requires i < j < |Without(profiles, frame)|
    ensures k < l < |profiles|
    ensures profiles[k] == Without(profiles, frame)[i] && profiles[l] == Without(profiles, frame)[j]
  {
    if profiles[0].profile.frameName == frame {
      k, l := WithoutOrder(profiles[1..], frame, i, j);
      k, l := k + 1, l + 1;
    } else if i == 0 {
      l := WithoutPlace(profiles[1..], frame, j - 1);
      k, l := 0, l + 1;
    } else {
      k, l := WithoutOrder(profiles[1..], frame, i - 1, j - 1);
      k, l := k + 1, l + 1;
    }
  }

  lemma {:induction false} WithoutPlace(profiles: seq<Event>, frame: string, j: nat) returns (l: nat)
    requires j < |Without(profiles, frame)|
    ensures l < |profiles| && profiles[l] == Without(profiles, frame)[j]
  {
    if profiles[0].profile.frameName == frame {
      l := WithoutPlace(profiles[1..], frame, j);
      l := l + 1;
    } else if j == 0 {
      l := 0;
    } else {
      l := WithoutPlace(profiles[1..], frame, j - 1);
      l := l + 1;
    }
  }

  /** The list has the profiles in force in the order they were set. */
  lemma {:induction false} ProfilesInOrder(log: seq<Event>, i: nat, j: nat)
    requires i < j < |Replayed(log, START).profiles|
    ensures SetBefore(log, Replayed(log, START).profiles[i], Replayed(log, START).profiles[j])
    decreases |log|
  {
    if log != [] {
      var before, e := log[..|log| - 1], log[|log| - 1];
      assert log == before + [e];
      SettingSnoc(before, e);
      var s := Replayed(before, START);
      var x, y := Replayed(log, START).profiles[i], Replayed(log, START).profiles[j];
      hide InForce, LastPlot, Without, Replayed;
      var w := Without(s.profiles, e.profile.frameName);
      if e.kind.ProfileSet? && j == |w| {
        WithoutHas(s.profiles, e.profile.frameName, x);
        assert x in w;
        LastSet(before, e, x);
      } else {
        var k, l := i, j;
        if e.kind.ProfileSet? || e.kind.ProfileClear? {
          k, l := WithoutOrder(s.profiles, e.profile.frameName, i, j);
          assert x == w[i] && y == w[j];
          WithoutHas(s.profiles, e.profile.frameName, x);
          WithoutHas(s.profiles, e.profile.frameName, y);
        }
        ProfilesInOrder(before, k, l);
        StillBefore(before, e, x, y);
      }
    }
  }

  lemma LastSet(log: seq<Event>, e: Event, x: Event)
    requires e.kind.ProfileSet? && x.profile.frameName != e.profile.frameName
    ensures SetBefore(log + [e], x, e)
  {
    hide InForce, LastPlot;
    var more := log + [e];
    forall k: nat, l: nat | k <= |log| && l <= |log| && InForce(more, k) && more[k] == x && InForce(more, l) && more[l] == e
      ensures k < l
    {
      OneMoreProfile(log, e, k);
      OneMoreProfile(log, e, l);
    }
  }

  lemma StillBefore(log: seq<Event>, e: Event, x: Event, y: Event)
    requires SetBefore(log, x, y)
    requires e.kind.ProfileSet? ==> x.profile.frameName != e.profile.frameName && y.profile.frameName != e.profile.frameName
    ensures SetBefore(log + [e], x, y)
  {
    hide InForce, LastPlot;
    var more := log + [e];
    forall k: nat, l: nat | k <= |log| && l <= |log| && InForce(more, k) && more[k] == x && InForce(more, l) && more[l] == y
      ensures k < l
    {
      OneMoreProfile(log, e, k);
      OneMoreProfile(log, e, l);
    }
  }

  /** And the plot setup is the last one of the log. */
  lemma {:induction false} PlotInForce(log: seq<Event>, e: Event)
    ensures Replayed(log, START).plot == Some(e) <==> exists k: nat :: LastPlot(log, k) && log[k] == e
    decreases |log|
  {
    if log != [] {
      var before, last := log[..|log| - 1], log[|log| - 1];
      assert log == before + [last];
      PlotInForce(before, e);
      SettingSnoc(before, last);
      hide LastPlot, InForce, Without;
      OneMoreProfile(before, last, |before|);
      if k: nat :| LastPlot(log, k) && log[k] == e {
        OneMoreProfile(before, last, k);
      }
      if k: nat :| LastPlot(before, k) && before[k] == e {
        OneMoreProfile(before, last, k);
      }
    }
  }

  // ---------------------------------------------------------------- the loop

  /** Brings the list of active profiles up to date with one profile event. */
  method ApplyActiveRawProfileEvent(active: seq<Event>, event: Event) returns (updated: seq<Event>)
    requires event.kind.ProfileSet? || event.kind.ProfileClear?
    ensures forall x :: x in updated <==>
      (event.kind.ProfileSet? && x == event) || (x in active && !Unsets(event, x.profile.frameName))
    ensures forall plot :: Applied(Setting(active, plot), event) == Setting(updated, plot)
  {
    forall x
      ensures x in Applied(Setting(active, None), event).profiles <==>
        (event.kind.ProfileSet? && x == event) || (x in active && !Unsets(event, x.profile.frameName))
    {
      AppliedHas(Setting(active, None), event, x);
    }
    if event.kind.ProfileClear? && event.profile.frameName == "" {
      return [];
    }
    updated := [];
    for i := 0 to |active|
      invariant updated + Without(active[i..], event.profile.frameName)
             == Without(active, event.profile.frameName)
    {
      assert active[i..][1..] == active[i + 1..];
      if active[i].profile.frameName != event.profile.frameName {
        updated := updated + [active[i]];
      }
    }
    if event.kind.ProfileSet? {
      updated := updated + [event];
    }
  }

  lemma CutNone(s: Setting, cut: nat, includeTx: bool)
    ensures Kept([], cut, includeTx) == [] && Carried([], cut, s, includeTx) == s
  {
  }

  /** One event of the cut: what remains of it, and the setting it leaves behind. */
  lemma CutOne(events: seq<Event>, i: nat, cut: nat, s: Setting, includeTx: bool)
    requires i < |events|
    ensures var e, now, next := events[i], events[i..], events[i + 1..];
      if !e.Counted(includeTx) && cut > 0 then
        && Kept(now, cut, includeTx) == Kept(next, cut, includeTx)
        && Carried(now, cut, s, includeTx) == Carried(next, cut, Applied(s, e), includeTx)
      else
        && Carried(now, cut, s, includeTx) == Carried(next, Rest(cut, |e.bytes|), s, includeTx)
        && Kept(now, cut, includeTx)
           == (if !e.Counted(includeTx) then [e]
               else if |e.bytes| <= cut || e.bytes == [] then []
               else [e.(bytes := e.bytes[cut..])]) + Kept(next, Rest(cut, |e.bytes|), includeTx)
  {
    hide Applied;
    assert events[i..][1..] == events[i + 1..];
  }

  /** Cuts the first `keepStart` counted bytes off the log, one event at a time. */
  method TrimRawCaptureEventsToPayloadWindow(events: seq<Event>, keepStart: nat, includeTx: bool)
    returns (trimmed: seq<Event>)
    ensures trimmed == Trimmed(events, keepStart, includeTx)
  {
    hide Without, Kept, Carried;
    var activeProfiles: seq<Event> := [];
    var activePlotSetup: Option<Event> := None;
    var keptEvents: seq<Event> := [];
    var rxCursor: nat := 0;
    for i := 0 to |events|
      invariant keptEvents + Kept(events[i..], Rest(keepStart, rxCursor), includeTx)
             == Kept(events, keepStart, includeTx)
      invariant Carried(events[i..], Rest(keepStart, rxCursor), Setting(activeProfiles, activePlotSetup), includeTx)
             == Carried(events, keepStart, START, includeTx)
    {
      var event := events[i];
      CutOne(events, i, Rest(keepStart, rxCursor), Setting(activeProfiles, activePlotSetup), includeTx);
      if !event.kind.RxBytes? && !(includeTx && event.kind.TxBytes?) {
        if rxCursor < keepStart {
          if event.kind.ProfileSet? || event.kind.ProfileClear? {
            activeProfiles := ApplyActiveRawProfileEvent(activeProfiles, event);
          } else if event.kind.PlotSetup? {
            activePlotSetup := Some(event);
          }
        } else {
          keptEvents := keptEvents + [event];
        }
        continue;
      }
      var eventStart := rxCursor;
      var eventEnd := eventStart + |event.bytes|;
      rxCursor := eventEnd;
      if eventEnd <= keepStart || event.bytes == [] {
        continue;
      }
      var kept := event;
      if eventStart < keepStart {
        kept := event.(bytes := event.bytes[keepStart - eventStart..]);
      }
      keptEvents := keptEvents + [kept];
    }
    assert events[|events|..] == [];
    CutNone(Setting(activeProfiles, activePlotSetup), Rest(keepStart, rxCursor), includeTx);
    trimmed := activeProfiles;
    if activePlotSetup.Some? {
      trimmed := trimmed + [activePlotSetup.value];
    }
    trimmed := trimmed + keptEvents;
  }

  // ---------------------------------------------------------------- what a cut keeps

  /** A setting a replay can reach: one profile for each frame, each held by the event that set it. */
  predicate Reachable(s: Setting) {
    && (forall i :: 0 <= i < |s.profiles| ==> s.profiles[i].kind.ProfileSet?)
    && (forall i, j :: 0 <= i < j < |s.profiles| ==>
         s.profiles[i].profile.frameName != s.profiles[j].profile.frameName)
    && (s.plot.Some? ==> s.plot.value.kind.PlotSetup?)
  }

  lemma WithoutDrops(profiles: seq<Event>, frame: string)
    ensures var w := Without(profiles, frame);
      forall i :: 0 <= i < |w| ==> w[i] in profiles && w[i].profile.frameName != frame
    ensures (forall i :: 0 <= i < |profiles| ==> profiles[i].profile.frameName != frame)
      ==> Without(profiles, frame) == profiles
  {
    var w := Without(profiles, frame);
    forall i | 0 <= i < |w|
      ensures w[i] in profiles && w[i].profile.frameName != frame
    {
      WithoutHas(profiles, frame, w[i]);
      assert w[i] in w;
    }
    if forall i :: 0 <= i < |profiles| ==> profiles[i].profile.frameName != frame {
      WithoutNone(profiles, frame);
    }
  }

  lemma {:induction false} WithoutNone(profiles: seq<Event>, frame: string)
    requires forall i :: 0 <= i < |profiles| ==> profiles[i].profile.frameName != frame
    ensures Without(profiles, frame) == profiles
  {
    if profiles != [] {
      var rest := profiles[1..];
      assert forall i :: 0 <= i < |rest| ==> rest[i] == profiles[i + 1];
      WithoutNone(rest, frame);
    }
  }

  lemma ReachableSplit(profiles: seq<Event>)
    requires profiles != [] && Reachable(Setting(profiles, None))
    ensures Reachable(Setting(profiles[1..], None)) && profiles[0].kind.ProfileSet?
    ensures forall p :: p in profiles[1..] ==> p.profile.frameName != profiles[0].profile.frameName
  {
  }

  lemma ReachablePrepend(p: Event, profiles: seq<Event>)
    requires Reachable(Setting(profiles, None)) && p.kind.ProfileSet?
    ensures (forall i :: 0 <= i < |profiles| ==> profiles[i].profile.frameName != p.profile.frameName)
      ==> Reachable(Setting([p] + profiles, None))
  {
  }

  lemma {:induction false} WithoutKeepsDistinct(profiles: seq<Event>, frame: string)
    requires Reachable(Setting(profiles, None))
    ensures Reachable(Setting(Without(profiles, frame), None))
    decreases |profiles|
  {
    hide Reachable;
    if profiles != [] {
      ReachableSplit(profiles);
      WithoutKeepsDistinct(profiles[1..], frame);
      WithoutDrops(profiles[1..], frame);
      ReachablePrepend(profiles[0], Without(profiles[1..], frame));
    }
  }

  lemma AppliedReachable(s: Setting, e: Event)
    requires Reachable(s)
    ensures Reachable(Applied(s, e))
  {
    hide Without;
    assert Reachable(Setting(s.profiles, None));
    WithoutDrops(s.profiles, e.profile.frameName);
    WithoutKeepsDistinct(s.profiles, e.profile.frameName);
  }

  lemma {:induction false} CarriedReachable(events: seq<Event>, cut: nat, s: Setting, includeTx: bool)
    requires Reachable(s)
    ensures Reachable(Carried(events, cut, s, includeTx))
  {
    if events != [] {
      AppliedReachable(s, events[0]);
      var e, rest := events[0], events[1..];
      if e.Counted(includeTx) {
        CarriedReachable(rest, Rest(cut, |e.bytes|), s, includeTx);
      } else if cut > 0 {
        CarriedReachable(rest, cut, Applied(s, e), includeTx);
      } else {
        CarriedReachable(rest, 0, s, includeTx);
      }
    }
  }

  lemma {:induction false} MeaningConcat(a: seq<Event>, b: seq<Event>, s: Setting, includeTx: bool)
    ensures Meaning(a + b, s, includeTx) == Meaning(a, s, includeTx) + Meaning(b, Replayed(a, s), includeTx)
    ensures Replayed(a + b, s) == Replayed(b, Replayed(a, s))
    ensures Total(a + b, includeTx) == Total(a, includeTx) + Total(b, includeTx)
    ensures Received(a + b) == Received(a) + Received(b)
  {
    hide Applied;
    if a == [] {
      assert a + b == b;
    } else {
      var e, rest, next := a[0], a[1..], Applied(s, a[0]);
      assert (a + b)[1..] == rest + b;
      MeaningConcat(rest, b, next, includeTx);
      Assoc(if e.Counted(includeTx) then Marked(e.bytes, e.kind, s) else [],
            Meaning(rest, next, includeTx), Meaning(b, Replayed(rest, next), includeTx));
      Assoc(if e.kind.RxBytes? then e.bytes else [], Received(rest), Received(b));
    }
  }

  /** Replaying profile events for different frames sets exactly those profiles, in that order. */
  lemma {:induction false} ProfilesReinstate(done: seq<Event>, todo: seq<Event>, plot: Option<Event>, includeTx: bool)
    requires Reachable(Setting(done + todo, None))
    ensures Replayed(todo, Setting(done, plot)) == Setting(done + todo, plot)
    ensures Meaning(todo, Setting(done, plot), includeTx) == []
    ensures Total(todo, includeTx) == 0 && Received(todo) == []
    decreases |todo|
  {
    if todo == [] {
      assert done + todo == done;
    } else {
      var e := todo[0];
      assert (done + todo)[|done|] == e;
      forall i | 0 <= i < |done| ensures done[i].profile.frameName != e.profile.frameName {
        assert (done + todo)[i] == done[i];
      }
      WithoutDrops(done, e.profile.frameName);
      assert done + [e] + todo[1..] == done + todo;
      ProfilesReinstate(done + [e], todo[1..], plot, includeTx);
    }
  }

  lemma ReachableParts(s: Setting)
    ensures Reachable(START) && Reinstated(START) == []
    ensures Reachable(s) ==> Reachable(Setting(s.profiles, None)) && (s.plot.Some? ==> s.plot.value.kind.PlotSetup?)
  {
  }

  lemma OneSetup(e: Event, s: Setting, includeTx: bool)
    requires e.kind.PlotSetup?
    ensures Replayed([e], s) == s.(plot := Some(e))
    ensures Meaning([e], s, includeTx) == []
    ensures Total([e], includeTx) == 0 && Received([e]) == []
  {
    assert [e][1..] == [];
  }

  /** The events put in front of the log reproduce the setting and play no bytes. */
  lemma ReinstatedReplays(s: Setting, includeTx: bool)
    requires Reachable(s)
    ensures Replayed(Reinstated(s), START) == s
    ensures Meaning(Reinstated(s), START, includeTx) == []
    ensures Total(Reinstated(s), includeTx) == 0 && Received(Reinstated(s)) == []
  {
    hide Without, Reachable, Replayed, Meaning, Total, Received;
    var profiles := s.profiles;
    assert [] + profiles == profiles;
    ReachableParts(s);
    ProfilesReinstate([], profiles, None, includeTx);
    if s.plot.Some? {
      MeaningConcat(profiles, [s.plot.value], START, includeTx);
      OneSetup(s.plot.value, Setting(profiles, None), includeTx);
    } else {
      assert Reinstated(s) == profiles;
    }
  }

  /** With nothing left to cut the rest plays as before. */
  lemma {:induction false} KeptWhole(events: seq<Event>, s: Setting, includeTx: bool)
    ensures Meaning(Kept(events, 0, includeTx), s, includeTx) == Meaning(events, s, includeTx)
    ensures Replayed(Kept(events, 0, includeTx), s) == Replayed(events, s)
    ensures Carried(events, 0, s, includeTx) == s
  {
    if events != [] {
      var e := events[0];
      KeptWhole(events[1..], Applied(s, e), includeTx);
      KeptWhole(events[1..], s, includeTx);
    }
  }

  lemma {:induction false} MeaningLength(events: seq<Event>, s: Setting, includeTx: bool)
    ensures |Meaning(events, s, includeTx)| == Total(events, includeTx)
  {
    if events != [] {
      MeaningLength(events[1..], Applied(s, events[0]), includeTx);
    }
  }

  lemma DropAcross<T>(a: seq<T>, b: seq<T>, n: nat)
    requires n <= |a| + |b|
    ensures n >= |a| ==> (a + b)[n..] == b[n - |a|..]
    ensures n <= |a| ==> (a + b)[n..] == a[n..] + b
  {
  }

  lemma {:induction false} KeptMeaning(events: seq<Event>, cut: nat, s: Setting, includeTx: bool)
    ensures Min(cut, Total(events, includeTx)) <= |Meaning(events, s, includeTx)|
    ensures Meaning(Kept(events, cut, includeTx), Carried(events, cut, s, includeTx), includeTx)
         == Meaning(events, s, includeTx)[Min(cut, Total(events, includeTx))..]
    ensures Replayed(Kept(events, cut, includeTx), Carried(events, cut, s, includeTx)) == Replayed(events, s)
    decreases |events|, 1
  {
    hide Applied;
    MeaningLength(events, s, includeTx);
    if events == [] {
    } else if cut == 0 {
      KeptWhole(events, s, includeTx);
    } else if !events[0].Counted(includeTx) {
      KeptMeaning(events[1..], cut, Applied(s, events[0]), includeTx);
    } else if |events[0].bytes| <= cut {
      KeptPast(events, cut, s, includeTx);
    } else {
      KeptWithin(events, cut, s, includeTx);
    }
  }

  lemma KeptPast(events: seq<Event>, cut: nat, s: Setting, includeTx: bool)
    requires events != [] && events[0].Counted(includeTx) && |events[0].bytes| <= cut
    ensures Min(cut, Total(events, includeTx)) <= |Meaning(events, s, includeTx)|
    ensures Meaning(Kept(events, cut, includeTx), Carried(events, cut, s, includeTx), includeTx)
         == Meaning(events, s, includeTx)[Min(cut, Total(events, includeTx))..]
    ensures Replayed(Kept(events, cut, includeTx), Carried(events, cut, s, includeTx)) == Replayed(events, s)
    decreases |events|, 0
  {
    hide Without;
    var e, rest := events[0], events[1..];
    KeptMeaning(rest, cut - |e.bytes|, s, includeTx);
    MeaningLength(rest, s, includeTx);
    assert Applied(s, e) == s;
    DropAcross(Marked(e.bytes, e.kind, s), Meaning(rest, s, includeTx), Min(cut, Total(events, includeTx)));
  }

  lemma KeptWithin(events: seq<Event>, cut: nat, s: Setting, includeTx: bool)
    requires events != [] && events[0].Counted(includeTx) && cut < |events[0].bytes|
    ensures cut <= |Meaning(events, s, includeTx)|
    ensures Meaning(Kept(events, cut, includeTx), s, includeTx) == Meaning(events, s, includeTx)[cut..]
    ensures Replayed(Kept(events, cut, includeTx), s) == Replayed(events, s)
    ensures Carried(events, cut, s, includeTx) == s
  {
    hide Without;
    var e, rest := events[0], events[1..];
    KeptWhole(rest, s, includeTx);
    var kept, tail := e.(bytes := e.bytes[cut..]), Kept(rest, 0, includeTx);
    assert kept.bytes != [];
    assert Kept(events, cut, includeTx) == [kept] + tail;
    assert ([kept] + tail)[1..] == tail;
    var marked := Marked(e.bytes, e.kind, s);
    assert marked[cut..] == Marked(kept.bytes, kept.kind, s);
    DropAcross(marked, Meaning(rest, s, includeTx), cut);
  }

  /** Cutting the log keeps the replay: every byte that remains is met under the same active profiles
    * and the same plot setup as before, the bytes that go are exactly the oldest ones, and the replay
    * ends under the same setting. */
  lemma TrimKeepsReplay(events: seq<Event>, cut: nat, includeTx: bool)
    ensures Min(cut, Total(events, includeTx)) <= |Meaning(events, START, includeTx)|
    ensures Meaning(Trimmed(events, cut, includeTx), START, includeTx)
         == Meaning(events, START, includeTx)[Min(cut, Total(events, includeTx))..]
    ensures Replayed(Trimmed(events, cut, includeTx), START) == Replayed(events, START)
  {
    var s := Carried(events, cut, START, includeTx);
    CarriedReachable(events, cut, START, includeTx);
    ReinstatedReplays(s, includeTx);
    MeaningConcat(Reinstated(s), Kept(events, cut, includeTx), START, includeTx);
    KeptMeaning(events, cut, START, includeTx);
  }

  /** The counted bytes left are the ones that were not cut. */
  lemma TrimTotal(events: seq<Event>, cut: nat, includeTx: bool)
    ensures Total(Trimmed(events, cut, includeTx), includeTx)
         == Total(events, includeTx) - Min(cut, Total(events, includeTx))
  {
    TrimKeepsReplay(events, cut, includeTx);
    MeaningLength(events, START, includeTx);
    MeaningLength(Trimmed(events, cut, includeTx), START, includeTx);
  }

  // ---------------------------------------------------------------- under which setting a byte is met

  /** A byte of the log is met under the setting of the events before it. */
  lemma MetUnder(events: seq<Event>, k: nat, j: nat, includeTx: bool)
    requires k < |events| && events[k].Counted(includeTx) && j < |events[k].bytes|
    ensures var at := Total(events[..k], includeTx) + j;
      && at < |Meaning(events, START, includeTx)|
      && Meaning(events, START, includeTx)[at]
         == Met(events[k].bytes[j], events[k].kind, Replayed(events[..k], START))
  {
    hide Applied, Replayed;
    var before, rest := events[..k], events[k..];
    assert events == before + rest && rest[0] == events[k];
    MeaningConcat(before, rest, START, includeTx);
    MeaningLength(before, START, includeTx);
  }

  /** The cut falls after the first events that hold as many counted bytes, and carries the setting they leave. */
  lemma {:induction false} CutAfter(events: seq<Event>, cut: nat, s: Setting, includeTx: bool) returns (n: nat)
    ensures n <= |events| && Carried(events, cut, s, includeTx) == Replayed(events[..n], s)
    ensures n < |events| ==> Total(events[..n], includeTx) >= cut
    ensures forall m :: 0 <= m < n ==> Total(events[..m], includeTx) < cut
    decreases |events|
  {
    hide Without;
    if events == [] || cut == 0 {
      n := 0;
      CarriedNone(events, s, includeTx);
      CutNone(s, cut, includeTx);
    } else {
      var e, rest := events[0], events[1..];
      var left := if e.Counted(includeTx) then Rest(cut, |e.bytes|) else cut;
      var next := if e.Counted(includeTx) then s else Applied(s, e);
      n := CutAfter(rest, left, next, includeTx);
      n := n + 1;
      forall m | 0 < m <= n
        ensures Total(events[..m], includeTx)
             == Total(rest[..m - 1], includeTx) + if e.Counted(includeTx) then |e.bytes| else 0
      {
        assert events[..m][0] == e && events[..m][1..] == rest[..m - 1];
      }
      assert events[..n][0] == e && events[..n][1..] == rest[..n - 1];
    }
  }

  /** What a trim puts in front of the bytes it keeps: the profiles that were in force there, in the order they were
    * set, and the last plot setup. */
  lemma TrimmedFront(events: seq<Event>, cut: nat, includeTx: bool, e: Event)
      returns (n: nat, profiles: seq<Event>, plot: seq<Event>)
    ensures n <= |events| && (n < |events| ==> Total(events[..n], includeTx) >= cut)
    ensures forall m :: 0 <= m < n ==> Total(events[..m], includeTx) < cut
    ensures Trimmed(events, cut, includeTx) == profiles + plot + Kept(events, cut, includeTx)
    ensures e in profiles <==> exists k: nat :: InForce(events[..n], k) && events[k] == e
    ensures forall i, j :: 0 <= i < j < |profiles| ==> SetBefore(events[..n], profiles[i], profiles[j])
    ensures |plot| <= 1 && (e in plot <==> exists k: nat :: LastPlot(events[..n], k) && events[k] == e)
  {
    n := CutAfter(events, cut, START, includeTx);
    var before := events[..n];
    var s := Replayed(before, START);
    profiles, plot := s.profiles, if s.plot.Some? then [s.plot.value] else [];
    ProfileInForce(before, e);
    PlotInForce(before, e);
    forall i, j | 0 <= i < j < |profiles|
      ensures SetBefore(before, profiles[i], profiles[j])
    {
      ProfilesInOrder(before, i, j);
    }
    hide Kept, Carried, Replayed, Total, SetBefore;
  }

  // ---------------------------------------------------------------- cutting again

  lemma Assoc<T>(a: seq<T>, b: seq<T>, c: seq<T>)
    ensures a + b + c == a + (b + c)
  {
  }

  lemma {:induction false} KeptConcat(a: seq<Event>, b: seq<Event>, cut: nat, s: Setting, includeTx: bool)
    ensures var left := Rest(cut, Total(a, includeTx));
      && Kept(a + b, cut, includeTx) == Kept(a, cut, includeTx) + Kept(b, left, includeTx)
      && Carried(a + b, cut, s, includeTx) == Carried(b, left, Carried(a, cut, s, includeTx), includeTx)
  {
    hide Applied;
    if a == [] {
      assert a + b == b;
    } else {
      var e, rest := a[0], a[1..];
      assert (a + b)[1..] == rest + b;
      if e.Counted(includeTx) {
        var after := Rest(cut, |e.bytes|);
        KeptConcat(rest, b, after, s, includeTx);
        Assoc([e.(bytes := if cut < |e.bytes| then e.bytes[cut..] else [])],
              Kept(rest, after, includeTx), Kept(b, Rest(after, Total(rest, includeTx)), includeTx));
      } else {
        KeptConcat(rest, b, cut, if cut > 0 then Applied(s, e) else s, includeTx);
        Assoc([e], Kept(rest, 0, includeTx), Kept(b, Rest(cut, Total(rest, includeTx)), includeTx));
      }
    }
  }

  lemma {:induction false} CarriedNone(events: seq<Event>, s: Setting, includeTx: bool)
    ensures Carried(events, 0, s, includeTx) == s
  {
    if events != [] {
      CarriedNone(events[1..], s, includeTx);
    }
  }

  lemma {:induction false} KeptTwice(events: seq<Event>, first: nat, second: nat, s: Setting, includeTx: bool)
    ensures var kept := Kept(events, first, includeTx);
      && Kept(kept, second, includeTx) == Kept(events, first + second, includeTx)
      && (second > 0 ==>
           Carried(kept, second, Carried(events, first, s, includeTx), includeTx)
           == Carried(events, first + second, s, includeTx))
    decreases |events|
  {
    hide Without, Applied;
    if events != [] {
      var e, rest := events[0], events[1..];
      if !e.Counted(includeTx) {
        if first > 0 {
          KeptTwice(rest, first, second, Applied(s, e), includeTx);
        } else {
          KeptTwice(rest, 0, second, if second > 0 then Applied(s, e) else s, includeTx);
          CarriedNone(rest, s, includeTx);
          CarriedNone(rest, Applied(s, e), includeTx);
          assert ([e] + Kept(rest, 0, includeTx))[1..] == Kept(rest, 0, includeTx);
        }
      } else if |e.bytes| <= first || e.bytes == [] {
        KeptTwice(rest, Rest(first, |e.bytes|), second, s, includeTx);
      } else {
        var kept, tail := e.(bytes := e.bytes[first..]), Kept(rest, 0, includeTx);
        assert Kept(events, first, includeTx) == [kept] + tail;
        assert ([kept] + tail)[1..] == tail;
        CarriedNone(rest, s, includeTx);
        KeptTwice(rest, 0, Rest(second, |kept.bytes|), s, includeTx);
        CarriedNone(tail, s, includeTx);
        if second < |kept.bytes| {
          assert kept.bytes[second..] == e.bytes[first + second..];
        }
      }
    }
  }

  lemma ReinstatedControls(s: Setting)
    requires Reachable(s)
    ensures var front := Reinstated(s);
      forall i :: 0 <= i < |front| ==> !front[i].kind.RxBytes? && !front[i].kind.TxBytes?
  {
  }

  lemma {:induction false} ControlsKept(events: seq<Event>, cut: nat, s: Setting, includeTx: bool)
    requires forall i :: 0 <= i < |events| ==> !events[i].kind.RxBytes? && !events[i].kind.TxBytes?
    ensures cut == 0 ==> Kept(events, cut, includeTx) == events
    ensures cut > 0 ==>
      Kept(events, cut, includeTx) == [] && Carried(events, cut, s, includeTx) == Replayed(events, s)
    ensures Total(events, includeTx) == 0
  {
    if events != [] {
      ControlsKept(events[1..], cut, Applied(s, events[0]), includeTx);
    }
  }

  /** A log that was cut, then grew, then was cut again is the log that grew and was cut once. */
  lemma TrimThenGrow(events: seq<Event>, more: seq<Event>, first: nat, second: nat, includeTx: bool)
    requires first <= Total(events, includeTx)
    ensures Trimmed(Trimmed(events, first, includeTx) + more, second, includeTx)
         == Trimmed(events + more, first + second, includeTx)
  {
    hide Kept, Carried, Total, Reachable, Reinstated, Replayed, Meaning, Received, Applied, Without;
    ReachableParts(START);
    var s := Carried(events, first, START, includeTx);
    var kept := Kept(events, first, includeTx);
    var front := Reinstated(s);
    CarriedReachable(events, first, START, includeTx);
    ReinstatedReplays(s, includeTx);
    ReinstatedControls(s);
    ControlsKept(front, second, START, includeTx);
    KeptConcat(front, kept + more, second, START, includeTx);
    KeptConcat(kept, more, second, s, includeTx);
    KeptConcat(events, more, first + second, START, includeTx);
    KeptTwice(events, first, second, START, includeTx);
    CarriedNone(front + (kept + more), START, includeTx);
    CarriedNone(more, s, includeTx);
    TrimTotal(events, first, includeTx);
    MeaningConcat(front, kept, START, includeTx);
    assert front + kept + more == front + (kept + more);
  }

  /** Cutting twice is cutting once by the sum. */
  lemma TrimTwice(events: seq<Event>, first: nat, second: nat, includeTx: bool)
    ensures Trimmed(Trimmed(events, first, includeTx), second, includeTx)
         == Trimmed(events, first + second, includeTx)
  {
    hide Kept, Carried, Total, Reachable, Reinstated, Replayed, Meaning, Received, Applied, Without;
    ReachableParts(START);
    var s := Carried(events, first, START, includeTx);
    var kept := Kept(events, first, includeTx);
    var front := Reinstated(s);
    CarriedReachable(events, first, START, includeTx);
    ReinstatedReplays(s, includeTx);
    ReinstatedControls(s);
    ControlsKept(front, second, START, includeTx);
    KeptConcat(front, kept, second, START, includeTx);
    KeptTwice(events, first, second, START, includeTx);
    CarriedNone(front + kept, START, includeTx);
  }

  // ---------------------------------------------------------------- the received bytes

  predicate Ends<T(==)>(part: seq<T>, whole: seq<T>) {
    |part| <= |whole| && whole[|whole| - |part|..] == part
  }

  lemma EndsJoin<T>(part: seq<T>, whole: seq<T>, front: seq<T>)
    ensures Ends(part, whole) ==> Ends(part, front + whole)
    ensures Ends(part + whole, front + whole) <==> Ends(part, front)
  {
    if |part| <= |front| {
      assert (front + whole)[|front| - |part|..] == front[|front| - |part|..] + whole;
      if Ends(part + whole, front + whole) {
        assert part == (part + whole)[..|part|];
        assert front[|front| - |part|..] == (front[|front| - |part|..] + whole)[..|part|];
      }
    }
  }

  lemma {:induction false} KeptReceived(events: seq<Event>, cut: nat, includeTx: bool)
    ensures Ends(Received(Kept(events, cut, includeTx)), Received(events))
    ensures cut == 0 ==> Received(Kept(events, cut, includeTx)) == Received(events)
  {
    hide Ends;
    if events == [] {
      assert Ends<byte>([], []) by { EndsJoin<byte>([], [], []); EndsNone<byte>(); }
    } else {
      var e, rest := events[0], events[1..];
      var all := Received(rest);
      var bytes := if e.kind.RxBytes? then e.bytes else [];
      if e.Counted(includeTx) && cut < |e.bytes| {
        KeptReceived(rest, 0, includeTx);
        var kept, tail := e.(bytes := e.bytes[cut..]), Kept(rest, 0, includeTx);
        assert Kept(events, cut, includeTx) == [kept] + tail;
        assert ([kept] + tail)[1..] == tail;
        EndsSlice(bytes, cut);
        EndsJoin(if e.kind.RxBytes? then kept.bytes else [], all, bytes);
      } else if !e.Counted(includeTx) && cut == 0 {
        KeptReceived(rest, 0, includeTx);
        assert ([e] + Kept(rest, 0, includeTx))[1..] == Kept(rest, 0, includeTx);
        EndsSlice(Received(events), 0);
      } else {
        var left := if e.Counted(includeTx) then Rest(cut, |e.bytes|) else cut;
        KeptReceived(rest, left, includeTx);
        EndsJoin(Received(Kept(rest, left, includeTx)), all, bytes);
      }
    }
  }

  lemma EndsNone<T>()
    ensures Ends<T>([], [])
  {
  }

  lemma EndsSlice<T>(whole: seq<T>, cut: nat)
    ensures cut <= |whole| ==> Ends(whole[cut..], whole)
    ensures Ends([], whole) && Ends(whole, whole)
  {
  }

  /** Whatever is counted, cutting the log only ever takes received bytes off their front. */
  lemma TrimReceived(events: seq<Event>, cut: nat, includeTx: bool)
    ensures Ends(Received(Trimmed(events, cut, includeTx)), Received(events))
  {
    hide Received, Kept, Carried, Meaning, Replayed, Total, Applied;
    var s := Carried(events, cut, START, includeTx);
    ReachableParts(START);
    CarriedReachable(events, cut, START, includeTx);
    ReinstatedReplays(s, includeTx);
    MeaningConcat(Reinstated(s), Kept(events, cut, includeTx), START, includeTx);
    KeptReceived(events, cut, includeTx);
  }

  lemma {:induction false} ReceivedTotal(events: seq<Event>)
    ensures |Received(events)| == Total(events, false)
    ensures Total(events, false) <= Total(events, true)
  {
    if events != [] {
      ReceivedTotal(events[1..]);
    }
  }

  method RawCaptureEventRxBytes(events: seq<Event>) returns (total: nat)
    ensures total == |Received(events)|
  {
    total := 0;
    for i := 0 to |events|
      invariant total + Total(events[i..], false) == Total(events, false)
    {
      assert events[i..][1..] == events[i + 1..];
      if events[i].kind.RxBytes? {
        total := total + |events[i].bytes|;
      }
    }
    ReceivedTotal(events);
  }

  /** Prepares the events for an ordinary export, which stores only the payload window.  What the exported
    * events receive is the payload itself, unless the log received at least as many bytes and the
    * payload is not its end.  Otherwise a log that covers the payload keeps the replay of those bytes. */
  method NormalizeRawCaptureExportWindow(events: seq<Event>, payload: seq<byte>, capturedAtMs: nat)
    returns (exported: seq<Event>)
    ensures |Received(exported)| == |payload|
    ensures Received(exported) == payload <==> (|Received(events)| < |payload| || Ends(payload, Received(events)))
    ensures events != [] && |payload| <= |Received(events)| ==>
      && |payload| <= |Meaning(events, START, false)|
      && Meaning(exported, START, false)
         == Meaning(events, START, false)[|Meaning(events, START, false)| - |payload|..]
      && Replayed(exported, START) == Replayed(events, START)
  {
    hide Kept, Carried, Meaning, Replayed, Total, Applied;
    var eventRxBytes := RawCaptureEventRxBytes(events);
    ReceivedTotal(events);
    if events != [] && eventRxBytes >= |payload| {
      var keepStart: nat := eventRxBytes - |payload|;
      exported := TrimRawCaptureEventsToPayloadWindow(events, keepStart, false);
      TrimReceived(events, keepStart, false);
      TrimTotal(events, keepStart, false);
      TrimKeepsReplay(events, keepStart, false);
      MeaningLength(events, START, false);
      ReceivedTotal(exported);
      return;
    }
    if payload != [] {
      exported := [Event(RxBytes, capturedAtMs, payload, Profile("", 0, []), [], "", 0)];
      assert exported[1..] == [];
      return;
    }
    exported := TrimRawCaptureEventsToPayloadWindow(events, eventRxBytes, false);
    TrimReceived(events, eventRxBytes, false);
  }

  // ---------------------------------------------------------------- the live log

  /** The log is the history cut once, up to byte events that are empty. */
  predicate OneCut(log: seq<Event>, history: seq<Event>) {
    && Total(log, true) <= Total(history, true)
    && Trimmed(log, 0, true) == Trimmed(history, Total(history, true) - Total(log, true), true)
  }

  /** However often a live log was cut, it plays exactly the latest bytes of everything it was ever given,
    * each under the setting it had there, and ends under the same setting. */
  lemma LiveLogReplays(log: seq<Event>, history: seq<Event>)
    requires OneCut(log, history)
    ensures Total(log, true) <= |Meaning(history, START, true)|
    ensures Meaning(log, START, true)
         == Meaning(history, START, true)[|Meaning(history, START, true)| - Total(log, true)..]
    ensures Replayed(log, START) == Replayed(history, START)
  {
    hide Kept, Carried, Meaning, Replayed, Total, Trimmed, Applied;
    MeaningLength(log, START, true);
    MeaningLength(history, START, true);
    TrimKeepsReplay(log, 0, true);
    TrimKeepsReplay(history, Total(history, true) - Total(log, true), true);
  }

  /** The log held to a budget of counted bytes. */
  function Bounded(events: seq<Event>, limit: nat): seq<Event> {
    if Total(events, true) <= limit then events else Trimmed(events, Total(events, true) - limit, true)
  }

  /** The part of the session that the live view owns: the log, its received bytes, and the running count
    * of the budget that received and sent bytes share. */
  class LiveCapture {
    var events: seq<Event>
    var payload: seq<byte>
    var truncated: bool
    var rxOnly: bool
    var capturedAtMs: nat
    var retainedRawBytes: nat
    var rawEventSequence: nat
    /** Every event accepted since the log was last emptied by its owner. */
    ghost var history: seq<Event>

    ghost predicate Valid()
      reads this
    {
      && payload == Received(events)
      && OneCut(events, history)
      && (truncated <==> Total(events, true) < Total(history, true))
      && (events != [] ==> retainedRawBytes == Total(events, true))
    }

    constructor ()
      ensures Valid()
      ensures events == [] && history == [] && retainedRawBytes == 0 && rawEventSequence == 0
    {
      events, payload, history := [], [], [];
      truncated, rxOnly, capturedAtMs, retainedRawBytes, rawEventSequence := false, true, 0, 0, 0;
    }

    /** The beginning of every append: the event is numbered and goes to the end of the log. */
    method Push(event: Event)
      requires Valid()
      requires !event.Counted(true) ==> event.bytes == []
      modifies this
      ensures rawEventSequence == old(rawEventSequence) + 1
      ensures var accepted := event.(sequence := rawEventSequence);
        events == old(events) + [accepted] && history == old(history) + [accepted]
      ensures payload == Received(events) && retainedRawBytes == Total(events, true)
      ensures truncated == old(truncated)
      ensures capturedAtMs == (if old(capturedAtMs) == 0 then event.timestampMs else old(capturedAtMs))
      ensures rxOnly == (old(rxOnly) && !event.kind.TxBytes?)
    {
      hide Received, Total, Trimmed, OneCut;
      NoEvents();
      if events == [] {
        retainedRawBytes := 0;
      }
      rawEventSequence := rawEventSequence + 1;
      var accepted := event.(sequence := rawEventSequence);
      OneEvent(events, accepted);
      events := events + [accepted];
      history := history + [accepted];
      if event.kind.TxBytes? {
        rxOnly := false;
      }
      if capturedAtMs == 0 {
        capturedAtMs := event.timestampMs;
      }
      if event.kind.RxBytes? {
        payload := payload + event.bytes;
      }
      retainedRawBytes := retainedRawBytes + |event.bytes|;
    }

    /** The end of every append: what exceeds the budget is cut off the front of the log. */
    method EnforceBudget(limit: nat)
      requires retainedRawBytes == Total(events, true) && payload == Received(events)
      modifies `events, `payload, `truncated, `retainedRawBytes
      ensures events == Bounded(old(events), limit) && payload == Received(events)
      ensures retainedRawBytes == Min(Total(old(events), true), limit)
      ensures truncated == (old(truncated) || Total(old(events), true) > limit)
    {
      hide Received, Total, Trimmed;
      if retainedRawBytes > limit {
        events := TrimRawCaptureEventsToPayloadWindow(events, retainedRawBytes - limit, true);
        retainedRawBytes := limit;
        truncated := true;
        payload := JoinedReceived(events);
      }
    }

    /** Takes one event into the log.  `offline` is the time after an offline replay during which no
      * connection is active; events are then refused. */
    method AppendRawCaptureEvent(event: Event, limit: nat, offline: bool)
      requires Valid()
      requires !event.Counted(true) ==> event.bytes == []
      modifies this
      ensures Valid()
      ensures offline ==> unchanged(this)
      ensures !offline ==>
        var accepted := event.(sequence := old(rawEventSequence) + 1);
        var grown := old(events) + [accepted];
        && history == old(history) + [accepted]
        && rawEventSequence == old(rawEventSequence) + 1
        && events == Bounded(grown, limit)
        && retainedRawBytes == Min(Total(grown, true), limit) == Total(events, true)
        && truncated == (old(truncated) || Total(grown, true) > limit)
        && capturedAtMs == (if old(capturedAtMs) == 0 then event.timestampMs else old(capturedAtMs))
        && rxOnly == (old(rxOnly) && !event.kind.TxBytes?)
    {
      hide Received, Total, Trimmed, OneCut, Bounded;
      if offline {
        return;
      }
      ghost var log, past := events, history;
      Push(event);
      Regrown(log, past, event.(sequence := rawEventSequence), limit);
      EnforceBudget(limit);
    }

    /** Takes received bytes into the log.  A log that holds bytes of another protocol starts afresh. */
    method AppendLiveRawCapture(event: Event, limit: nat, protocolChanged: bool)
      requires Valid()
      requires event.kind.RxBytes?
      modifies this
      ensures Valid()
      ensures |payload| <= retainedRawBytes <= limit
      ensures var accepted := event.(sequence := old(rawEventSequence) + 1);
        var anew := old(payload) != [] && protocolChanged;
        && history == (if anew then [] else old(history)) + [accepted]
        && events == Bounded((if anew then [] else old(events)) + [accepted], limit)
    {
      hide Kept, Carried, Meaning, Replayed, Received, Total, Trimmed, Applied, Without, Bounded, OneCut;
      NoEvents();
      if payload != [] && protocolChanged {
        events, payload, history := [], [], [];
        truncated, rxOnly, capturedAtMs := false, true, 0;
      }
      if events == [] {
        capturedAtMs := event.timestampMs;
      }
      AppendRawCaptureEvent(event, limit, false);
      ReceivedTotal(events);
      if |payload| <= limit {
        return;
      }
      // The cut that follows in the source can no longer apply: the shared budget is the tighter one.
      assert false;
    }
  }

  method JoinedReceived(events: seq<Event>) returns (payload: seq<byte>)
    ensures payload == Received(events)
  {
    payload := [];
    for i := 0 to |events|
      invariant payload + Received(events[i..]) == Received(events)
    {
      assert events[i..][1..] == events[i + 1..];
      if events[i].kind.RxBytes? {
        payload := payload + events[i].bytes;
      }
    }
  }

  lemma OneEvent(events: seq<Event>, e: Event)
    requires !e.Counted(true) ==> e.bytes == []
    ensures Total(events + [e], true) == Total(events, true) + |e.bytes|
    ensures Received(events + [e]) == Received(events) + (if e.kind.RxBytes? then e.bytes else [])
  {
    assert [e][1..] == [];
    MeaningConcat(events, [e], START, true);
  }

  lemma NoEvents()
    ensures Total([], true) == 0 && Received([]) == [] && OneCut([], [])
  {
  }

  lemma Regrown(log: seq<Event>, past: seq<Event>, e: Event, limit: nat)
    requires OneCut(log, past)
    ensures var grown, all := log + [e], past + [e];
      var left := Bounded(grown, limit);
      && Total(left, true) == Min(Total(grown, true), limit)
      && Total(all, true) - Total(left, true)
         == (Total(past, true) - Total(log, true)) + (Total(grown, true) - Total(left, true))
      && OneCut(left, all)
      && Total(log, true) <= Total(past, true)
      && Total(grown, true) <= Total(all, true)
  {
    hide Kept, Carried, Meaning, Replayed, Received, Total, Trimmed, Applied, Without;
    var grown, all := log + [e], past + [e];
    MeaningConcat(log, [e], START, true);
    MeaningConcat(past, [e], START, true);
    var gone: nat := Total(past, true) - Total(log, true);
    var cut: nat := Total(grown, true) - Min(Total(grown, true), limit);
    TrimTotal(grown, cut, true);
    SameCut(log, past, [e], gone, cut);
    TrimIdle(grown, cut);
  }

  lemma SameCut(log: seq<Event>, past: seq<Event>, more: seq<Event>, gone: nat, cut: nat)
    requires gone <= Total(past, true)
    requires Trimmed(log, 0, true) == Trimmed(past, gone, true)
    ensures Trimmed(log + more, cut, true) == Trimmed(past + more, gone + cut, true)
  {
    hide *;
    TrimThenGrow(log, more, 0, cut, true);
    TrimThenGrow(past, more, gone, cut, true);
  }

  lemma TrimIdle(events: seq<Event>, cut: nat)
    requires cut <= Total(events, true)
    ensures Trimmed(Trimmed(events, cut, true), 0, true) == Trimmed(events, cut, true)
  {
    hide *;
    TrimThenGrow(events, [], cut, 0, true);
    assert Trimmed(events, cut, true) + [] == Trimmed(events, cut, true);
    assert events + [] == events;
  }
}
