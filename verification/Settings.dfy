/** Settings: budgets that follow a scale unless they are set by hand, and the three-way merge of an edited
  * draft with settings that changed meanwhile. */
module Settings {

  datatype Budget =
    | RxChunk | FrameRows | PlotAppends | Flush
    | RxQueue | Memory | OutputQueue | BatchBytes
    | ReadBuffer | WarnBytes

  /** A setting: one of the ordinary fields of the settings pages, the scale and whether the scale adapts by
    * itself, or a budget's amount and whether that was set by hand. */
  datatype Name = Plain(index: nat) | Scale | Adaptive | Amount(budget: Budget) | Explicit(budget: Budget)

  datatype Val = Num(number: real) | Flag(on: bool) | Text(text: string)

  const PLAIN_FIELDS: nat := 52

  predicate Shown(b: Budget) {
    b.RxChunk? || b.FrameRows? || b.PlotAppends? || b.Flush?
  }

  function ShownOnes(): seq<Budget> {
    [RxChunk, FrameRows, PlotAppends, Flush]
  }

  function Budgets(): seq<Budget> {
    [ReadBuffer, RxQueue, Memory, OutputQueue, BatchBytes, RxChunk, FrameRows, PlotAppends, WarnBytes, Flush]
  }

  /** The settings the pages can edit. */
  predicate Listed(n: Name) {
    match n
    case Plain(i) => i < PLAIN_FIELDS
    case Scale => true
    case Adaptive => true
    case Amount(b) => Shown(b)
    case Explicit(b) => !b.ReadBuffer? && !b.WarnBytes?
  }

  function OtherNames(): seq<Name> {
    [Scale, Adaptive, Amount(RxChunk), Amount(FrameRows), Amount(PlotAppends), Amount(Flush),
     Explicit(RxChunk), Explicit(FrameRows), Explicit(PlotAppends), Explicit(Flush),
     Explicit(RxQueue), Explicit(Memory), Explicit(OutputQueue), Explicit(BatchBytes)]
  }

  /** Where a listed name other than an ordinary field stands among them. */
  function PlaceOf(n: Name): nat {
    match n
    case Scale => 0
    case Adaptive => 1
    case Amount(b) => (match b case RxChunk => 2 case FrameRows => 3 case PlotAppends => 4 case _ => 5)
    case Explicit(b) =>
      (match b case RxChunk => 6 case FrameRows => 7 case PlotAppends => 8 case Flush => 9
               case RxQueue => 10 case Memory => 11 case OutputQueue => 12 case _ => 13)
    case Plain(_) => 14
  }

  lemma OthersPlaced()
    ensures forall i :: 0 <= i < |OtherNames()| ==>
      Listed(OtherNames()[i]) && !OtherNames()[i].Plain? && PlaceOf(OtherNames()[i]) == i
    ensures forall n :: Listed(n) && !n.Plain? ==> PlaceOf(n) < |OtherNames()| && OtherNames()[PlaceOf(n)] == n
  {
  }

  /** All listed names, each once. */
  function ListedNames(): (names: seq<Name>)
    ensures forall n :: n in names <==> Listed(n)
    ensures forall i, j :: 0 <= i < j < |names| ==> names[i] != names[j]
  {
    var plain := seq(PLAIN_FIELDS, i requires 0 <= i < PLAIN_FIELDS => Plain(i));
    OthersPlaced();
    NamesTogether(plain);
    plain + OtherNames()
  }

  lemma NamesTogether(plain: seq<Name>)
    requires |plain| == PLAIN_FIELDS && forall i :: 0 <= i < PLAIN_FIELDS ==> plain[i] == Plain(i)
    ensures forall n :: n in plain + OtherNames() <==> Listed(n)
    ensures forall i, j :: 0 <= i < j < |plain + OtherNames()| ==> (plain + OtherNames())[i] != (plain + OtherNames())[j]
  {
    hide PlaceOf, OtherNames;
    OthersPlaced();
    var names := plain + OtherNames();
    forall n | Listed(n) ensures n in names {
      assert if n.Plain? then names[n.index] == n else names[PLAIN_FIELDS + PlaceOf(n)] == n;
    }
    forall i, j | 0 <= i < j < |names| ensures names[i] != names[j] {
      assert i >= PLAIN_FIELDS ==> PlaceOf(names[i]) == i - PLAIN_FIELDS;
      assert j >= PLAIN_FIELDS ==> PlaceOf(names[j]) == j - PLAIN_FIELDS;
    }
  }

  type Config = map<Name, Val>

  predicate Known(n: Name) {
    Listed(n) || n.Amount? || n.Explicit?
  }

  /** A complete configuration. */
  ghost predicate Typed(c: Config) {
    && (forall n :: n in c <==> Known(n))
    && (forall b :: c[Amount(b)].Num? && c[Explicit(b)].Flag?)
    && c[Scale].Num? && c[Adaptive].Flag?
  }

  // ---------------------------------------------------------------- derived budgets

  const TWO_64: real := 18446744073709551616.0

  /** The amount of a budget at scale one. */
  function Base(b: Budget): (r: real)
    ensures r > 0.0
  {
    match b
    case RxChunk => 4096.0
    case FrameRows => 2000.0
    case PlotAppends => 128.0
    case Flush => 2.0
    case RxQueue => 67108864.0
    case Memory => 268435456.0
    case OutputQueue => 65536.0
    case BatchBytes => 8192.0
    case ReadBuffer => 4096.0
    case WarnBytes => 33554432.0
  }

  /** A derived amount: the flush time is scaled as it is, other budgets are whole and at least one. */
  function Derived(b: Budget, scale: real): real
    requires scale > 0.0
  {
    if b.Flush? then Base(b) * scale
    else
      var rounded := (Base(b) * scale + 0.5).Floor;
      if rounded < 1 then 1.0 else rounded as real
  }

  predicate Overflows(b: Budget, scale: real)
    requires scale > 0.0
  {
    !b.Flush? && (Base(b) * scale + 0.5).Floor as real >= TWO_64
  }

  function ScaleOf(c: Config): real
    requires Scale in c && c[Scale].Num? && Adaptive in c && c[Adaptive].Flag?
  {
    if c[Adaptive].on then 1.0 else c[Scale].number
  }

  predicate FlushFits(amount: real) {
    amount >= 0.0 && amount * 1000.0 < TWO_64
  }

  /** When all derived budgets can be represented. */
  ghost predicate Computable(c: Config)
    requires Typed(c)
  {
    && c[Scale].number > 0.0
    && (forall b :: !c[Explicit(b)].on ==> !Overflows(b, ScaleOf(c)))
    && FlushFits(if c[Explicit(Flush)].on then c[Amount(Flush)].number else Derived(Flush, ScaleOf(c)))
  }

  /** The configuration with every budget derived that is not explicit. */
  function Recomputed(c: Config): Config
    requires Scale in c && c[Scale].Num? && Adaptive in c && c[Adaptive].Flag? && c[Scale].number > 0.0
    requires forall b :: Explicit(b) in c && c[Explicit(b)].Flag?
  {
    map n | n in c :: if n.Amount? && !c[Explicit(n.budget)].on then Num(Derived(n.budget, ScaleOf(c))) else c[n]
  }

  /** Derives the budgets, all of them or none. */
  method RecomputePerformanceDefaults(value: Config) returns (ok: bool, result: Config)
    requires Typed(value)
    ensures ok <==> Computable(value)
    ensures ok ==> result == Recomputed(value)
    ensures !ok ==> result == value
    ensures Typed(result)
  {
    hide Derived, Overflows, Budgets, FlushFits;
    if value[Scale].number <= 0.0 {
      return false, value;
    }
    var scale := ScaleOf(value);
    result := value;
    ok := true;
    ghost var done: set<Budget> := {};
    for i := 0 to |Budgets()|
      invariant forall b :: b in done <==> b in Budgets()[..i]
      invariant forall n :: n in result <==> n in value
      invariant ok <==> forall b :: b in done && !value[Explicit(b)].on ==> !Overflows(b, scale)
      invariant ok ==> forall n :: n in value ==>
        result[n] == if n.Amount? && n.budget in done && !value[Explicit(n.budget)].on
                     then Num(Derived(n.budget, scale)) else value[n]
    {
      var b := Budgets()[i];
      assert Budgets()[..i + 1] == Budgets()[..i] + [b];
      if !value[Explicit(b)].on {
        if Overflows(b, scale) {
          ok := false;
        } else {
          result := result[Amount(b) := Num(Derived(b, scale))];
        }
      }
      done := done + {b};
    }
    AllBudgets();
    assert Budgets()[..|Budgets()|] == Budgets();
    if !ok || !FlushFits(result[Amount(Flush)].number) {
      ok := false;
      result := value;
      return;
    }
    assert result == Recomputed(value);
  }

  lemma AllBudgets()
    ensures forall b: Budget :: b in Budgets()
  {
    forall b: Budget ensures b in Budgets() {
      match b
      case ReadBuffer => assert Budgets()[0] == b;
      case RxQueue => assert Budgets()[1] == b;
      case Memory => assert Budgets()[2] == b;
      case OutputQueue => assert Budgets()[3] == b;
      case BatchBytes => assert Budgets()[4] == b;
      case RxChunk => assert Budgets()[5] == b;
      case FrameRows => assert Budgets()[6] == b;
      case PlotAppends => assert Budgets()[7] == b;
      case WarnBytes => assert Budgets()[8] == b;
      case Flush => assert Budgets()[9] == b;
    }
  }

  /** Deriving again changes nothing, and amounts set by hand are never touched. */
  lemma RecomputeSettles(c: Config)
    requires Typed(c) && Computable(c)
    ensures Typed(Recomputed(c)) && Computable(Recomputed(c))
    ensures Recomputed(Recomputed(c)) == Recomputed(c)
    ensures forall n :: n in c && (!n.Amount? || c[Explicit(n.budget)].on) ==> Recomputed(c)[n] == c[n]
  {
    hide Derived, Overflows;
  }

  lemma RecomputedAt(c: Config, b: Budget)
    requires Typed(c) && Computable(c) && !c[Explicit(b)].on
    ensures Amount(b) in Recomputed(c) && Recomputed(c)[Amount(b)] == Num(Derived(b, ScaleOf(c)))
  {
    hide Derived, Overflows, FlushFits;
  }

  /** Without scaling a budget that is not set by hand is this. */
  lemma DefaultBudget(c: Config, b: Budget)
    requires Typed(c) && Computable(c) && (c[Adaptive].on || c[Scale].number == 1.0) && !c[Explicit(b)].on
    ensures Amount(b) in Recomputed(c)
    ensures Recomputed(c)[Amount(b)] == Num(
      match b
      case RxChunk => 4096.0
      case FrameRows => 2000.0
      case PlotAppends => 128.0
      case Flush => 2.0
      case RxQueue => 67108864.0
      case Memory => 268435456.0
      case OutputQueue => 65536.0
      case BatchBytes => 8192.0
      case ReadBuffer => 4096.0
      case WarnBytes => 33554432.0)
  {
    RecomputedAt(c, b);
    WholeBase(b);
    assert ScaleOf(c) == 1.0;
    hide Computable, Recomputed, Derived, Typed;
  }

  lemma Rounded(x: real, n: int)
    requires n as real - 0.5 <= x < n as real + 0.5
    ensures (x + 0.5).Floor == n
  {
  }

  lemma WholeBase(b: Budget)
    ensures Derived(b, 1.0) == Base(b)
  {
    if !b.Flush? {
      Rounded(Base(b), BaseCount(b));
      assert Base(b) * 1.0 == Base(b);
    }
  }

  function BaseCount(b: Budget): (n: nat)
    ensures n as real == Base(b) && n >= 1
  {
    Base(b).Floor
  }

  lemma RoundsUp(x: real)
    requires x > 0.0
    ensures var n := (x + 0.5).Floor; n >= 0 && n as real - 0.5 <= x < n as real + 0.5
  {
  }

  /** Every other budget is its amount without scaling times the scale, to the nearest whole number and upwards from
    * halfway, but at least one; it overflows exactly when that would not fit 64 bits. */
  lemma NearestWhole(b: Budget, scale: real)
    requires scale > 0.0 && !b.Flush?
    ensures var exact, amount := Derived(b, 1.0) * scale, Derived(b, scale);
      && amount == amount.Floor as real && amount >= 1.0
      && (exact >= 0.5 ==> amount - 0.5 <= exact < amount + 0.5)
      && (exact < 0.5 ==> amount == 1.0)
      && (Overflows(b, scale) <==> amount >= 18446744073709551616.0)
  {
    WholeBase(b);
    var exact := Base(b) * scale;
    assert exact > 0.0;
    DerivedOf(b, scale, exact);
    hide Base, Derived, Overflows;
    RoundsUp(exact);
  }

  lemma DerivedOf(b: Budget, scale: real, exact: real)
    requires scale > 0.0 && !b.Flush? && exact == Base(b) * scale
    ensures var n := (exact + 0.5).Floor;
      && Derived(b, scale) == (if n < 1 then 1.0 else n as real)
      && (Overflows(b, scale) <==> n as real >= 18446744073709551616.0)
  {
    hide Base;
  }

  // ---------------------------------------------------------------- the merge, stated field by field

  /** Settings that the merge treats one at a time: all listed ones but the shown budgets. */
  predicate Single(n: Name) {
    Listed(n) && !(n.Amount? && Shown(n.budget)) && !(n.Explicit? && Shown(n.budget))
  }

  /** The budget's two settings as one. */
  datatype Pair = Pair(amount: Val, explicit: Val)

  function PairOf(c: Config, b: Budget): Pair
    requires Amount(b) in c && Explicit(b) in c
  {
    Pair(c[Amount(b)], c[Explicit(b)])
  }

  /** What the draft wants for a shown budget: an amount typed in over a derived one counts as set by hand. */
  function Wanted(baseline: Config, draft: Config, derived: Config, b: Budget): Pair
    requires Amount(b) in baseline && Explicit(b) in baseline && Amount(b) in draft && Explicit(b) in draft
    requires Amount(b) in derived
  {
    var before, next := PairOf(baseline, b), PairOf(draft, b);
    if before.explicit == next.explicit == Flag(false) && before.amount != next.amount && next.amount != derived[Amount(b)]
    then Pair(next.amount, Flag(true)) else next
  }

  /** The draft with its budgets derived, or as it is if they cannot be. */
  ghost function DerivedDraft(draft: Config): Config
    requires Typed(draft)
  {
    if Computable(draft) then Recomputed(draft) else draft
  }

  /** A single setting after the merge, before any budget is derived again. */
  function Chosen(baseline: Config, draft: Config, latest: Config, n: Name): Val
    requires n in baseline && n in draft && n in latest
  {
    if draft[n] != baseline[n] then draft[n] else latest[n]
  }

  predicate Clashes(baseline: Config, draft: Config, latest: Config, n: Name)
    requires n in baseline && n in draft && n in latest
  {
    draft[n] != baseline[n] && latest[n] != baseline[n] && latest[n] != draft[n]
  }

  ghost function ChosenPair(baseline: Config, draft: Config, latest: Config, b: Budget): Pair
    requires Typed(baseline) && Typed(draft) && Typed(latest)
  {
    if PairOf(draft, b) == PairOf(baseline, b) then PairOf(latest, b)
    else Wanted(baseline, draft, DerivedDraft(draft), b)
  }

  ghost predicate PairClashes(baseline: Config, draft: Config, latest: Config, b: Budget)
    requires Typed(baseline) && Typed(draft) && Typed(latest)
  {
    && PairOf(draft, b) != PairOf(baseline, b)
    && PairOf(latest, b) != PairOf(baseline, b)
    && PairOf(latest, b) != Wanted(baseline, draft, DerivedDraft(draft), b)
  }

  /** The merged configuration before budgets are derived again. */
  ghost predicate Merged(c: Config, baseline: Config, draft: Config, latest: Config)
    requires Typed(baseline) && Typed(draft) && Typed(latest)
  {
    && Typed(c)
    && (forall n :: Single(n) ==> c[n] == Chosen(baseline, draft, latest, n))
    && (forall b :: Shown(b) ==> PairOf(c, b) == ChosenPair(baseline, draft, latest, b))
    && (forall n :: Known(n) && !Listed(n) ==> c[n] == latest[n])
  }

  /** The conflicts found so far: single settings under their own name, budgets under that of the amount. */
  ghost predicate Noted(conflicts: set<Name>, baseline: Config, draft: Config, latest: Config)
    requires Typed(baseline) && Typed(draft) && Typed(latest)
  {
    && (forall n :: n in conflicts ==> Single(n) || (n.Amount? && Shown(n.budget)))
    && (forall n :: Single(n) ==> (n in conflicts <==> Clashes(baseline, draft, latest, n)))
    && (forall b :: Shown(b) ==> (Amount(b) in conflicts <==> PairClashes(baseline, draft, latest, b)))
  }

  /** Whether the edits make it necessary to derive the budgets again. */
  ghost predicate Rescales(baseline: Config, draft: Config)
    requires Typed(baseline) && Typed(draft)
  {
    || draft[Scale] != baseline[Scale] || draft[Adaptive] != baseline[Adaptive]
    || exists b :: Listed(Explicit(b)) && draft[Explicit(b)] != baseline[Explicit(b)]
  }

  // ---------------------------------------------------------------- the merge

  method CollectEdited(before: Config, after: Config) returns (edited: set<Name>)
    requires Typed(before) && Typed(after)
    ensures forall n :: n in edited <==> Listed(n) && after[n] != before[n]
  {
    hide ListedNames;
    var names := ListedNames();
    edited := {};
    for i := 0 to |names|
      invariant forall n :: n in edited <==> n in names[..i] && after[n] != before[n]
    {
      assert names[..i + 1] == names[..i] + [names[i]];
      assert Listed(names[i]);
      if after[names[i]] != before[names[i]] {
        edited := edited + {names[i]};
      }
    }
    assert names[..|names|] == names;
  }

  /** Takes every edit into the configuration and drops the conflicts in which both sides agree. */
  method TakeEdits(edited: set<Name>, draft: Config, latest: Config, found: set<Name>)
    returns (config: Config, conflicts: set<Name>, changed: set<Name>)
    requires Typed(draft) && Typed(latest) && forall n :: n in edited ==> Listed(n)
    ensures Typed(config)
    ensures forall n :: Known(n) ==> config[n] == if n in edited then draft[n] else latest[n]
    ensures forall n :: n in conflicts <==> n in found && !(n in edited && latest[n] == draft[n])
    ensures forall n :: n in changed <==> n in edited && latest[n] != draft[n]
  {
    hide ListedNames, Listed, Typed, Known;
    KeysKnown(draft, latest);
    var names := ListedNames();
    config, conflicts, changed := latest, found, {};
    ghost var done: set<Name> := {};
    for i := 0 to |names|
      invariant forall n :: n in done <==> n in names[..i]
      invariant forall n :: n in config <==> n in latest
      invariant forall n :: n in latest ==> config[n] == if n in edited && n in done then draft[n] else latest[n]
      invariant forall n :: n in conflicts <==> n in found && !(n in done && n in edited && latest[n] == draft[n])
      invariant forall n :: n in changed <==> n in done && n in edited && latest[n] != draft[n]
    {
      var n := names[i];
      assert names[..i + 1] == names[..i] + [n];
      assert n in names && Listed(n) && n !in done;
      if n in edited {
        if config[n] == draft[n] {
          conflicts := conflicts - {n};
        } else {
          changed := changed + {n};
        }
        config := config[n := draft[n]];
      }
      done := done + {n};
    }
    assert names[..|names|] == names;
    Retyped(config, draft, latest);
  }

  /** Settings taken from complete configurations make a complete one. */
  lemma Retyped(c: Config, a: Config, b: Config)
    requires Typed(a) && Typed(b)
    requires forall n :: n in c <==> Known(n)
    requires forall n :: Known(n) ==> c[n] == a[n] || c[n] == b[n]
    ensures Typed(c)
  {
    hide Listed;
    assert Known(Scale) && Known(Adaptive) by { ScaleKnown(); }
    forall b': Budget ensures c[Amount(b')].Num? && c[Explicit(b')].Flag? {
      assert Known(Amount(b')) && Known(Explicit(b'));
    }
  }

  lemma KeysKnown(a: Config, b: Config)
    requires Typed(a) && Typed(b)
    ensures forall n :: Listed(n) ==> n in a && n in b
    ensures forall n :: n in a <==> Known(n)
    ensures forall n :: n in b <==> Known(n)
  {
  }

  lemma ScaleKnown()
    ensures Known(Scale) && Known(Adaptive)
  {
  }

  /** Merges amount and flag of a shown budget as one setting. */
  method MergeBudget(b: Budget, baseline: Config, draft: Config, latest: Config, derived: Config, config: Config,
                     found: set<Name>)
    returns (merged: Config, conflicts: set<Name>)
    requires Typed(baseline) && Typed(draft) && Typed(latest) && Typed(config)
    requires Typed(derived) && derived == DerivedDraft(draft)
    ensures Typed(merged) && BudgetDone(b, merged, conflicts, baseline, draft, latest)
    ensures forall n :: n in config && n != Amount(b) && n != Explicit(b) ==> merged[n] == config[n]
    ensures forall n :: n != Amount(b) && n != Explicit(b) ==> (n in conflicts <==> n in found)
  {
    hide DerivedDraft, Recomputed, Computable, Listed, Typed;
    PairParts(baseline, b);
    PairParts(draft, b);
    PairParts(latest, b);
    PairParts(derived, b);
    conflicts := found - {Amount(b), Explicit(b)};
    var oldValue, nextValue, liveValue := baseline[Amount(b)], draft[Amount(b)], latest[Amount(b)];
    var oldFlag, nextFlag, liveFlag := baseline[Explicit(b)], draft[Explicit(b)], latest[Explicit(b)];
    if oldValue == nextValue && oldFlag == nextFlag {
      PairSet(config, b, liveValue, liveFlag);
      merged := config[Amount(b) := liveValue][Explicit(b) := liveFlag];
      return;
    }
    if oldFlag == nextFlag && !nextFlag.on && oldValue != nextValue && nextValue != derived[Amount(b)] {
      nextFlag := Flag(true);
    }
    if (liveValue != oldValue || liveFlag != oldFlag) && (liveValue != nextValue || liveFlag != nextFlag) {
      conflicts := conflicts + {Amount(b)};
    }
    PairSet(config, b, nextValue, nextFlag);
    merged := config[Amount(b) := nextValue][Explicit(b) := nextFlag];
  }

  lemma PairSet(config: Config, b: Budget, amount: Val, explicit: Val)
    requires Typed(config) && amount.Num? && explicit.Flag?
    ensures var c := config[Amount(b) := amount][Explicit(b) := explicit];
      && Typed(c) && PairOf(c, b) == Pair(amount, explicit)
      && (forall n :: n in config && n != Amount(b) && n != Explicit(b) ==> c[n] == config[n])
  {
    hide Listed;
  }

  /** A shown budget has been dealt with. */
  ghost predicate BudgetDone(b: Budget, merged: Config, conflicts: set<Name>, baseline: Config, draft: Config,
                             latest: Config)
    requires Typed(baseline) && Typed(draft) && Typed(latest) && Typed(merged)
  {
    && PairOf(merged, b) == ChosenPair(baseline, draft, latest, b)
    && Explicit(b) !in conflicts && (Amount(b) in conflicts <==> PairClashes(baseline, draft, latest, b))
  }

  method MergeBudgets(baseline: Config, draft: Config, latest: Config, config: Config, found: set<Name>)
    returns (merged: Config, conflicts: set<Name>)
    requires Typed(baseline) && Typed(draft) && Typed(latest) && Typed(config)
    ensures Typed(merged)
    ensures forall b :: Shown(b) ==> BudgetDone(b, merged, conflicts, baseline, draft, latest)
    ensures forall n :: Known(n) && !ShownName(n) ==> merged[n] == config[n]
    ensures forall n :: !ShownName(n) ==> (n in conflicts <==> n in found)
  {
    hide BudgetDone, Recomputed, Computable, ShownOnes, Shown, Listed;
    var ok, derived := RecomputePerformanceDefaults(draft);
    merged, conflicts := config, found;
    ShownBudgets();
    ghost var done: set<Budget> := {};
    for i := 0 to |ShownOnes()|
      invariant Typed(merged) && forall b :: b in done <==> b in ShownOnes()[..i]
      invariant forall b :: b in done ==> BudgetDone(b, merged, conflicts, baseline, draft, latest)
      invariant forall n :: Known(n) && !ShownName(n) ==> merged[n] == config[n]
      invariant forall n :: !ShownName(n) ==> (n in conflicts <==> n in found)
    {
      var b := ShownOnes()[i];
      assert ShownOnes()[..i + 1] == ShownOnes()[..i] + [b];
      assert b in ShownOnes() && Shown(b);
      ghost var before, noted := merged, conflicts;
      merged, conflicts := MergeBudget(b, baseline, draft, latest, derived, merged, conflicts);
      OthersStay(b, done, before, noted, merged, conflicts, baseline, draft, latest);
      done := done + {b};
    }
    assert ShownOnes()[..|ShownOnes()|] == ShownOnes();
  }

  lemma OthersStay(b: Budget, done: set<Budget>, before: Config, noted: set<Name>, merged: Config,
                   conflicts: set<Name>, baseline: Config, draft: Config, latest: Config)
    requires Typed(baseline) && Typed(draft) && Typed(latest) && Typed(before) && Typed(merged)
    requires forall n :: n in before && n != Amount(b) && n != Explicit(b) ==> merged[n] == before[n]
    requires forall n :: n != Amount(b) && n != Explicit(b) ==> (n in conflicts <==> n in noted)
    ensures forall k :: k in done && k != b && BudgetDone(k, before, noted, baseline, draft, latest) ==>
      BudgetDone(k, merged, conflicts, baseline, draft, latest)
  {
    hide ChosenPair, PairClashes;
  }

  lemma ShownBudgets()
    ensures forall b :: b in ShownOnes() <==> Shown(b)
  {
    assert ShownOnes()[0] == RxChunk && ShownOnes()[1] == FrameRows && ShownOnes()[2] == PlotAppends && ShownOnes()[3] == Flush;
  }

  predicate ShownName(n: Name) {
    (n.Amount? || n.Explicit?) && Shown(n.budget)
  }

  /** Lists the budgets whose derived amount goes over another's edit. */
  method DerivedConflicts(baseline: Config, latest: Config, config: Config, found: set<Name>)
    returns (conflicts: set<Name>)
    requires Typed(baseline) && Typed(latest) && Typed(config)
    ensures forall n :: n in conflicts <==>
      n in found || (n.Amount? && baseline[n] != latest[n] && config[n] != latest[n])
  {
    hide Budgets;
    AllBudgets();
    conflicts := found;
    for i := 0 to |Budgets()|
      invariant forall n :: n in conflicts <==>
        n in found || (n.Amount? && n.budget in Budgets()[..i] && baseline[n] != latest[n] && config[n] != latest[n])
    {
      var n := Amount(Budgets()[i]);
      assert Budgets()[..i + 1] == Budgets()[..i] + [Budgets()[i]];
      if baseline[n] != latest[n] && config[n] != latest[n] && n !in conflicts {
        conflicts := conflicts + {n};
      }
    }
    assert Budgets()[..|Budgets()|] == Budgets();
  }

  datatype MergeResult = MergeResult(config: Config, changedFields: set<Name>, conflicts: set<Name>, failed: bool)

  /** Everything the merge promises about the configuration. */
  ghost predicate MergeConfig(r: MergeResult, baseline: Config, draft: Config, latest: Config, accepted: bool)
    requires Typed(baseline) && Typed(draft) && Typed(latest)
  {
    exists merged ::
      Typed(merged) && Merged(merged, baseline, draft, latest) && Finished(r, merged, baseline, draft, accepted)
  }

  /** Budgets are derived again if the edits call for it and it can be done. */
  ghost predicate Finished(r: MergeResult, merged: Config, baseline: Config, draft: Config, accepted: bool)
    requires Typed(merged) && Typed(baseline) && Typed(draft)
  {
    if !accepted || !Rescales(baseline, draft) then r.config == merged && r.failed == !accepted
    else if Computable(merged) then r.config == Recomputed(merged) && !r.failed
    else r.config == merged && r.failed
  }

  /** Everything the merge promises about the list of conflicts. */
  ghost predicate MergeConflicts(r: MergeResult, baseline: Config, draft: Config, latest: Config, accepted: bool)
    requires Typed(baseline) && Typed(draft) && Typed(latest) && Typed(r.config)
  {
    exists noted :: Noted(noted, baseline, draft, latest)
      && Extended(r.conflicts, noted, r.config, baseline, latest, accepted && Rescales(baseline, draft))
  }

  /** Deriving budgets again adds those whose amount changed meanwhile and is overwritten. */
  ghost predicate Extended(conflicts: set<Name>, noted: set<Name>, config: Config, baseline: Config, latest: Config,
                           derived: bool)
    requires Typed(config) && Typed(baseline) && Typed(latest)
  {
    forall n :: n in conflicts <==>
      n in noted || (derived && n.Amount? && baseline[n] != latest[n] && config[n] != latest[n])
  }

  /** The edits that change anything. */
  ghost predicate IsTaken(changed: set<Name>, baseline: Config, draft: Config, latest: Config)
    requires Typed(baseline) && Typed(draft) && Typed(latest)
  {
    forall n :: n in changed <==> Listed(n) && draft[n] != baseline[n] && latest[n] != draft[n]
  }

  /** The check was asked about the merged settings and the edits that change anything. */
  ghost predicate Judged(accepted: bool, accepts: (Config, set<Name>) -> bool, baseline: Config, draft: Config,
                         latest: Config)
    requires Typed(baseline) && Typed(draft) && Typed(latest)
  {
    exists merged, changed ::
      && Merged(merged, baseline, draft, latest) && IsTaken(changed, baseline, draft, latest)
      && accepted == accepts(merged, changed)
  }

  lemma Judgement(merged: Config, changed: set<Name>, accepts: (Config, set<Name>) -> bool, baseline: Config,
                  draft: Config, latest: Config)
    requires Typed(baseline) && Typed(draft) && Typed(latest)
    requires Merged(merged, baseline, draft, latest) && IsTaken(changed, baseline, draft, latest)
    ensures Judged(accepts(merged, changed), accepts, baseline, draft, latest)
  {
    hide Merged, IsTaken;
  }

  /** The rule leaves no choice: there is one merged configuration. */
  lemma MergedUnique(a: Config, b: Config, baseline: Config, draft: Config, latest: Config)
    requires Typed(baseline) && Typed(draft) && Typed(latest)
    requires Merged(a, baseline, draft, latest) && Merged(b, baseline, draft, latest)
    ensures a == b
  {
    hide *;
    BothTyped(a, b, baseline, draft, latest);
    KeysKnown(a, b);
    forall n | n in a
      ensures a[n] == b[n]
    {
      MergedAt(a, b, baseline, draft, latest, n);
    }
  }

  lemma BothTyped(a: Config, b: Config, baseline: Config, draft: Config, latest: Config)
    requires Typed(baseline) && Typed(draft) && Typed(latest)
    requires Merged(a, baseline, draft, latest) && Merged(b, baseline, draft, latest)
    ensures Typed(a) && Typed(b)
  {
    hide Typed;
  }

  lemma MergedAt(a: Config, b: Config, baseline: Config, draft: Config, latest: Config, n: Name)
    requires Typed(baseline) && Typed(draft) && Typed(latest) && Known(n)
    requires Merged(a, baseline, draft, latest) && Merged(b, baseline, draft, latest)
    ensures n in a && n in b && a[n] == b[n]
  {
    hide ChosenPair, Chosen;
    if (n.Amount? || n.Explicit?) && Shown(n.budget) {
      assert PairOf(a, n.budget) == PairOf(b, n.budget);
    } else if Listed(n) {
      assert Single(n);
    }
  }

  /** Merges the edits of `draft` against `baseline` into `latest`.  `accepts` is the check of the edited values. */
  method MergeSettingsChanges(baseline: Config, draft: Config, latest: Config, overwriteConflicts: bool,
                              accepts: (Config, set<Name>) -> bool)
    returns (result: MergeResult, ghost accepted: bool)
    requires Typed(baseline) && Typed(draft) && Typed(latest)
    ensures Typed(result.config)
    ensures MergeConfig(result, baseline, draft, latest, accepted)
    ensures !overwriteConflicts || !accepted ==> MergeConflicts(result, baseline, draft, latest, accepted)
    ensures overwriteConflicts && accepted ==> result.conflicts == {}
    ensures accepted ==> forall n :: n in result.changedFields <==> Listed(n) && result.config[n] != latest[n]
    ensures !accepted ==> IsTaken(result.changedFields, baseline, draft, latest)
    ensures Judged(accepted, accepts, baseline, draft, latest)
  {
    hide Judged;
    hide Merged, Noted, Recomputed, Computable, BudgetDone, MergeConfig, MergeConflicts, Finished, Extended, Rescales;
    hide Listed, Typed;
    var edited := CollectEdited(baseline, draft);
    var live := CollectEdited(baseline, latest);
    var config, conflicts, changed := TakeEdits(edited, draft, latest, edited * live);
    ghost var taken, open := config, conflicts;
    config, conflicts := MergeBudgets(baseline, draft, latest, config, conflicts);
    MergedSoFar(baseline, draft, latest, edited, taken, config, conflicts);
    NotedSoFar(baseline, draft, latest, edited, live, open, conflicts, config);
    ghost var merged, noted := config, conflicts;
    result := MergeResult(config, changed, conflicts, false);
    MergedTyped(merged, baseline, draft, latest);
    accepted := accepts(config, changed);
    Judgement(config, changed, accepts, baseline, draft, latest);
    if !accepts(config, changed) {
      result := result.(failed := true);
      ResultHolds(result, merged, noted, baseline, draft, latest, false);
      return;
    }
    var rescale := RescalesAgain(baseline, draft);
    if rescale {
      var ok;
      ok, config := RecomputePerformanceDefaults(config);
      conflicts := DerivedConflicts(baseline, latest, config, conflicts);
      result := MergeResult(config, changed, conflicts, !ok);
    }
    changed := CollectEdited(latest, config);
    result := result.(changedFields := changed);
    ResultHolds(result, merged, noted, baseline, draft, latest, true);
    if overwriteConflicts {
      ResultCleared(result, baseline, draft, latest);
      result := result.(conflicts := {});
    }
  }

  lemma ResultCleared(r: MergeResult, baseline: Config, draft: Config, latest: Config)
    requires Typed(baseline) && Typed(draft) && Typed(latest)
    requires MergeConfig(r, baseline, draft, latest, true)
    ensures MergeConfig(r.(conflicts := {}), baseline, draft, latest, true)
  {
    hide Merged, Recomputed, Computable, Rescales, Typed;
    var merged :| Typed(merged) && Merged(merged, baseline, draft, latest) && Finished(r, merged, baseline, draft, true);
    assert Finished(r.(conflicts := {}), merged, baseline, draft, true);
  }

  /** The result is the merge, if the budgets were derived and listed as they should. */
  lemma ResultHolds(r: MergeResult, merged: Config, noted: set<Name>, baseline: Config, draft: Config, latest: Config,
                    accepted: bool)
    requires Typed(baseline) && Typed(draft) && Typed(latest) && Typed(merged) && Typed(r.config)
    requires Merged(merged, baseline, draft, latest) && Noted(noted, baseline, draft, latest)
    requires !accepted || !Rescales(baseline, draft) ==>
      r.config == merged && r.failed == !accepted && r.conflicts == noted
    requires accepted && Rescales(baseline, draft) ==>
      && r.failed == !Computable(merged)
      && r.config == (if Computable(merged) then Recomputed(merged) else merged)
      && forall n :: n in r.conflicts <==>
           n in noted || (n.Amount? && baseline[n] != latest[n] && r.config[n] != latest[n])
    ensures MergeConfig(r, baseline, draft, latest, accepted)
    ensures MergeConflicts(r, baseline, draft, latest, accepted)
  {
    hide Merged, Noted, Recomputed, Computable, Rescales, Typed;
    assert Finished(r, merged, baseline, draft, accepted);
    assert Extended(r.conflicts, noted, r.config, baseline, latest, accepted && Rescales(baseline, draft));
  }

  method RescalesAgain(baseline: Config, draft: Config) returns (rescales: bool)
    requires Typed(baseline) && Typed(draft)
    ensures rescales <==> Rescales(baseline, draft)
  {
    hide Listed;
    FlagsListed();
    ScaleKnown();
    rescales :=
      || baseline[Scale] != draft[Scale]
      || baseline[Adaptive] != draft[Adaptive]
      || baseline[Explicit(RxChunk)] != draft[Explicit(RxChunk)]
      || baseline[Explicit(FrameRows)] != draft[Explicit(FrameRows)]
      || baseline[Explicit(PlotAppends)] != draft[Explicit(PlotAppends)]
      || baseline[Explicit(Flush)] != draft[Explicit(Flush)]
      || baseline[Explicit(RxQueue)] != draft[Explicit(RxQueue)]
      || baseline[Explicit(Memory)] != draft[Explicit(Memory)]
      || baseline[Explicit(OutputQueue)] != draft[Explicit(OutputQueue)]
      || baseline[Explicit(BatchBytes)] != draft[Explicit(BatchBytes)];
  }

  lemma FlagsListed()
    ensures forall b :: Listed(Explicit(b)) <==>
      b in {RxChunk, FrameRows, PlotAppends, Flush, RxQueue, Memory, OutputQueue, BatchBytes}
  {
  }

  lemma MergedSoFar(baseline: Config, draft: Config, latest: Config, edited: set<Name>, taken: Config, config: Config,
                    conflicts: set<Name>)
    requires Typed(baseline) && Typed(draft) && Typed(latest) && Typed(taken) && Typed(config)
    requires forall n :: n in edited <==> Listed(n) && draft[n] != baseline[n]
    requires forall n :: Known(n) ==> taken[n] == if n in edited then draft[n] else latest[n]
    requires forall b :: Shown(b) ==> BudgetDone(b, config, conflicts, baseline, draft, latest)
    requires forall n :: Known(n) && !ShownName(n) ==> config[n] == taken[n]
    ensures Merged(config, baseline, draft, latest)
  {
    hide ChosenPair, Listed, PairClashes;
    forall b | Shown(b) ensures PairOf(config, b) == ChosenPair(baseline, draft, latest, b) {
      assert BudgetDone(b, config, conflicts, baseline, draft, latest);
    }
    forall n | Single(n) ensures config[n] == Chosen(baseline, draft, latest, n) {
      assert Known(n) && !ShownName(n);
    }
    forall n | Known(n) && !Listed(n) ensures config[n] == latest[n] {
      NotShown(n);
    }
  }

  lemma NotShown(n: Name)
    ensures Known(n) && !Listed(n) ==> !ShownName(n)
  {
  }

  lemma NotedSoFar(baseline: Config, draft: Config, latest: Config, edited: set<Name>, live: set<Name>,
                   open: set<Name>, conflicts: set<Name>, config: Config)
    requires Typed(baseline) && Typed(draft) && Typed(latest)
    requires forall n :: n in edited <==> Listed(n) && draft[n] != baseline[n]
    requires forall n :: n in live <==> Listed(n) && latest[n] != baseline[n]
    requires forall n :: n in open <==> n in edited * live && !(n in edited && latest[n] == draft[n])
    requires Typed(config) && forall b :: Shown(b) ==> BudgetDone(b, config, conflicts, baseline, draft, latest)
    requires forall n :: !ShownName(n) ==> (n in conflicts <==> n in open)
    ensures Noted(conflicts, baseline, draft, latest)
  {
    hide PairClashes;
  }

  // ---------------------------------------------------------------- what that means

  /** A setting that is treated by itself ends up as the draft has it if the draft changed it, and as the
    * latest configuration has it otherwise; it is listed exactly when both changed it to different values. */
  lemma SingleSettings(r: MergeResult, baseline: Config, draft: Config, latest: Config, accepted: bool, n: Name)
    requires Typed(baseline) && Typed(draft) && Typed(latest) && Typed(r.config)
    requires MergeConfig(r, baseline, draft, latest, accepted)
    requires MergeConflicts(r, baseline, draft, latest, accepted)
    requires Single(n) && !n.Amount?
    ensures r.config[n] == if draft[n] != baseline[n] then draft[n] else latest[n]
    ensures n in r.conflicts <==> draft[n] != baseline[n] && latest[n] != baseline[n] && latest[n] != draft[n]
  {
    hide DerivedDraft, Wanted, ChosenPair, PairClashes, Finished, Rescales;
    var merged :| Typed(merged) && Merged(merged, baseline, draft, latest) && Finished(r, merged, baseline, draft, accepted);
    OnlyAmounts(r, merged, baseline, draft, accepted, n);
  }

  lemma OnlyAmounts(r: MergeResult, merged: Config, baseline: Config, draft: Config, accepted: bool, n: Name)
    requires Typed(merged) && Typed(baseline) && Typed(draft)
    requires Finished(r, merged, baseline, draft, accepted) && Known(n)
    ensures n in r.config && (!n.Amount? ==> r.config[n] == merged[n])
    ensures !(accepted && Rescales(baseline, draft)) ==> r.config == merged
  {
    hide Computable, Rescales;
  }

  /** What becomes of a shown budget.  Left alone, amount and flag are the latest ones.  Edited, they are the draft's,
    * and an amount typed in while the flag was off counts as set by hand unless it is just the amount that follows
    * from the draft's scale.  Deriving budgets again only touches amounts whose flag is off. */
  lemma ShownBudget(r: MergeResult, baseline: Config, draft: Config, latest: Config, accepted: bool, b: Budget)
    requires Typed(baseline) && Typed(draft) && Typed(latest) && Typed(r.config) && Shown(b)
    requires MergeConfig(r, baseline, draft, latest, accepted)
    ensures var alone := draft[Amount(b)] == baseline[Amount(b)] && draft[Explicit(b)] == baseline[Explicit(b)];
      var typed :=
        && !baseline[Explicit(b)].on && !draft[Explicit(b)].on && draft[Amount(b)] != baseline[Amount(b)]
        && Computable(draft) && draft[Amount(b)] != Num(Derived(b, ScaleOf(draft)));
      && r.config[Explicit(b)] == (if alone then latest[Explicit(b)] else if typed then Flag(true) else draft[Explicit(b)])
      && (r.config[Explicit(b)].on || !accepted || !Rescales(baseline, draft) ==>
            r.config[Amount(b)] == if alone then latest[Amount(b)] else draft[Amount(b)])
  {
    hide Rescales, Derived, Overflows, Finished, Recomputed, FlushFits, Listed;
    var merged := TheMerged(r, baseline, draft, latest, accepted);
    assert PairOf(merged, b) == ChosenPair(baseline, draft, latest, b);
    FinishedBudget(r, merged, baseline, draft, accepted, b);
    DerivedTyped(draft);
    WantedPair(baseline, draft, b);
    hide Computable, Merged, Wanted, DerivedDraft, MergeConfig;
    PairParts(baseline, b);
    PairParts(draft, b);
    PairParts(latest, b);
    PairParts(merged, b);
    hide Typed;
  }

  lemma FinishedBudget(r: MergeResult, merged: Config, baseline: Config, draft: Config, accepted: bool, b: Budget)
    requires Typed(merged) && Typed(baseline) && Typed(draft) && Typed(r.config)
    requires Finished(r, merged, baseline, draft, accepted)
    ensures r.config[Explicit(b)] == merged[Explicit(b)]
    ensures r.config[Explicit(b)].on || !accepted || !Rescales(baseline, draft) ==>
      r.config[Amount(b)] == merged[Amount(b)]
    ensures accepted && Rescales(baseline, draft) && !r.failed && !r.config[Explicit(b)].on ==>
      merged[Scale].number > 0.0 && r.config[Amount(b)] == Num(Derived(b, ScaleOf(merged)))
    ensures r.config[Scale] == merged[Scale] && r.config[Adaptive] == merged[Adaptive]
    ensures !r.failed ==> accepted
  {
    hide Rescales, Derived, Overflows, FlushFits;
  }

  /** What the draft wants for an edited budget. */
  lemma WantedPair(baseline: Config, draft: Config, b: Budget)
    requires Typed(baseline) && Typed(draft) && Typed(DerivedDraft(draft))
    ensures var typed :=
        && !baseline[Explicit(b)].on && !draft[Explicit(b)].on && draft[Amount(b)] != baseline[Amount(b)]
        && Computable(draft) && draft[Amount(b)] != Num(Derived(b, ScaleOf(draft)));
      Wanted(baseline, draft, DerivedDraft(draft), b)
      == Pair(draft[Amount(b)], if typed then Flag(true) else draft[Explicit(b)])
  {
    hide Derived, Overflows, FlushFits;
    if Computable(draft) && !draft[Explicit(b)].on {
      RecomputedAt(draft, b);
    }
    hide Computable, Recomputed;
  }

  /** The scale and whether it adapts. */
  ghost function Scaling(c: Config): (Val, Val)
    requires Typed(c)
  {
    (c[Scale], c[Adaptive])
  }

  ghost predicate ByHand(c: Config, b: Budget)
    requires Typed(c)
  {
    c[Explicit(b)].on
  }

  /** The budget has the amount that follows from the scale. */
  ghost predicate FollowsScale(c: Config, b: Budget)
    requires Typed(c)
  {
    c[Scale].number > 0.0 && c[Amount(b)] == Num(Derived(b, ScaleOf(c)))
  }

  /** The draft edited the scale, whether it adapts, or the flag of a budget the pages can edit. */
  ghost predicate ScaleEdited(baseline: Config, draft: Config)
    requires Typed(baseline) && Typed(draft)
  {
    || Scaling(draft) != Scaling(baseline)
    || exists b :: b != ReadBuffer && b != WarnBytes && ByHand(draft, b) != ByHand(baseline, b)
  }

  /** After the scale or a flag was edited every budget that is not set by hand has the amount that follows from the new one,
    * or the merge has failed. */
  lemma ScaleTakesHold(r: MergeResult, baseline: Config, draft: Config, latest: Config, accepted: bool, b: Budget)
    requires Typed(baseline) && Typed(draft) && Typed(latest) && Typed(r.config)
    requires MergeConfig(r, baseline, draft, latest, accepted)
    requires ScaleEdited(baseline, draft) && !r.failed && !ByHand(r.config, b)
    ensures FollowsScale(r.config, b)
    ensures draft[Scale] != baseline[Scale] ==> r.config[Scale] == draft[Scale]
  {
    hide *;
    ScaleRescales(baseline, draft);
    var merged := TheMerged(r, baseline, draft, latest, accepted);
    FinishedScale(r, merged, baseline, draft, accepted, b);
    MergedScale(merged, baseline, draft, latest);
  }

  lemma FinishedScale(r: MergeResult, merged: Config, baseline: Config, draft: Config, accepted: bool, b: Budget)
    requires Typed(merged) && Typed(baseline) && Typed(draft) && Typed(r.config)
    requires Finished(r, merged, baseline, draft, accepted) && Rescales(baseline, draft)
    requires !r.failed && !ByHand(r.config, b)
    ensures FollowsScale(r.config, b) && Scaling(r.config) == Scaling(merged)
    ensures r.config[Scale] == merged[Scale]
  {
    FinishedBudget(r, merged, baseline, draft, accepted, b);
    ScaleParts(r.config);
    ScaleParts(merged);
    SameScale(r.config, merged);
    hide Finished, Rescales, Derived, Typed;
  }

  lemma SameScale(a: Config, b: Config)
    requires Scale in a && a[Scale].Num? && Adaptive in a && a[Adaptive].Flag?
    requires Scale in b && b[Scale] == a[Scale] && Adaptive in b && b[Adaptive] == a[Adaptive]
    ensures ScaleOf(a) == ScaleOf(b)
  {
  }

  lemma ScaleParts(c: Config)
    requires Typed(c)
    ensures Scale in c && c[Scale].Num? && Adaptive in c && c[Adaptive].Flag?
  {
  }

  lemma ScaleRescales(baseline: Config, draft: Config)
    requires Typed(baseline) && Typed(draft)
    ensures ScaleEdited(baseline, draft) ==> Rescales(baseline, draft)
  {
    if b: Budget :| b != ReadBuffer && b != WarnBytes && ByHand(draft, b) != ByHand(baseline, b) {
      assert Listed(Explicit(b));
    }
  }

  lemma TheMerged(r: MergeResult, baseline: Config, draft: Config, latest: Config, accepted: bool) returns (merged: Config)
    requires Typed(baseline) && Typed(draft) && Typed(latest) && MergeConfig(r, baseline, draft, latest, accepted)
    ensures Typed(merged) && Merged(merged, baseline, draft, latest) && Finished(r, merged, baseline, draft, accepted)
  {
    hide Typed, Merged, Finished;
    merged :| Typed(merged) && Merged(merged, baseline, draft, latest) && Finished(r, merged, baseline, draft, accepted);
  }

  lemma MergedScale(merged: Config, baseline: Config, draft: Config, latest: Config)
    requires Typed(baseline) && Typed(draft) && Typed(latest) && Merged(merged, baseline, draft, latest)
    ensures Scale in merged && Scale in draft && (draft[Scale] != baseline[Scale] ==> merged[Scale] == draft[Scale])
  {
    hide ChosenPair;
    assert Single(Scale);
  }

  /** Where a lost edit of a setting is listed. */
  function ListedAs(n: Name): Name {
    if n.Explicit? && Shown(n.budget) then Amount(n.budget) else n
  }

  /** No concurrent edit is lost in silence: a setting that changed meanwhile and is overwritten, be it by the
    * draft or by deriving a budget, is listed; and nothing is listed that did not change meanwhile. */
  lemma NoSilentOverwrite(r: MergeResult, baseline: Config, draft: Config, latest: Config, accepted: bool, n: Name)
    requires Typed(baseline) && Typed(draft) && Typed(latest) && Typed(r.config)
    requires MergeConfig(r, baseline, draft, latest, accepted)
    requires MergeConflicts(r, baseline, draft, latest, accepted)
    requires Known(n)
    ensures latest[n] != baseline[n] && r.config[n] != latest[n] ==> ListedAs(n) in r.conflicts
    ensures n in r.conflicts ==>
      latest[n] != baseline[n] || (n.Amount? && latest[Explicit(n.budget)] != baseline[Explicit(n.budget)])
  {
    hide Finished, Rescales, Noted, Merged, Extended, Typed, Known, ListedAs;
    var merged :| Typed(merged) && Merged(merged, baseline, draft, latest) && Finished(r, merged, baseline, draft, accepted);
    var noted :| Noted(noted, baseline, draft, latest)
      && Extended(r.conflicts, noted, r.config, baseline, latest, accepted && Rescales(baseline, draft));
    OnlyAmounts(r, merged, baseline, draft, accepted, n);
    MergeNotes(merged, noted, baseline, draft, latest, n);
    ExtendedAt(r.conflicts, noted, r.config, baseline, latest, accepted && Rescales(baseline, draft), n);
  }

  lemma ExtendedAt(conflicts: set<Name>, noted: set<Name>, config: Config, baseline: Config, latest: Config,
                   derived: bool, n: Name)
    requires Typed(config) && Typed(baseline) && Typed(latest) && Known(n)
    requires Extended(conflicts, noted, config, baseline, latest, derived)
    ensures ListedAs(n) in noted ==> ListedAs(n) in conflicts
    ensures n in conflicts ==> n in noted || baseline[n] != latest[n]
    ensures derived && n.Amount? && baseline[n] != latest[n] && config[n] != latest[n] ==> ListedAs(n) in conflicts
  {
    hide Listed;
  }

  lemma MergedTyped(merged: Config, baseline: Config, draft: Config, latest: Config)
    requires Typed(baseline) && Typed(draft) && Typed(latest)
    requires Merged(merged, baseline, draft, latest)
    ensures Typed(merged)
  {
  }

  /** The same before any budget is derived again. */
  lemma MergeNotes(merged: Config, noted: set<Name>, baseline: Config, draft: Config, latest: Config, n: Name)
    requires Typed(baseline) && Typed(draft) && Typed(latest)
    requires Merged(merged, baseline, draft, latest) && Noted(noted, baseline, draft, latest) && Known(n)
    ensures latest[n] != baseline[n] && merged[n] != latest[n] ==> ListedAs(n) in noted
    ensures n in noted ==>
      latest[n] != baseline[n] || (n.Amount? && latest[Explicit(n.budget)] != baseline[Explicit(n.budget)])
  {
    hide DerivedDraft, Wanted;
    if ShownName(n) {
      assert PairOf(merged, n.budget) == ChosenPair(baseline, draft, latest, n.budget);
    } else if Listed(n) {
      assert Single(n);
    }
  }

  /** A draft without edits changes nothing and is in conflict with nothing. */
  lemma UneditedDraft(r: MergeResult, baseline: Config, latest: Config, accepted: bool)
    requires Typed(baseline) && Typed(latest) && Typed(r.config)
    requires MergeConfig(r, baseline, baseline, latest, accepted)
    requires MergeConflicts(r, baseline, baseline, latest, accepted)
    ensures r.config == latest && r.conflicts == {} && r.failed == !accepted
  {
    hide Merged, Noted, Computable, Recomputed, Typed, Rescales, Extended;
    NotRescaled(baseline);
    var merged :| Typed(merged) && Merged(merged, baseline, baseline, latest) && Finished(r, merged, baseline, baseline, accepted);
    UneditedConfig(merged, baseline, latest);
    var noted :| Noted(noted, baseline, baseline, latest)
      && Extended(r.conflicts, noted, r.config, baseline, latest, accepted && Rescales(baseline, baseline));
    UneditedNotes(noted, r.conflicts, r.config, baseline, latest);
  }

  lemma NotRescaled(c: Config)
    requires Typed(c)
    ensures !Rescales(c, c)
  {
  }

  lemma UneditedConfig(merged: Config, baseline: Config, latest: Config)
    requires Typed(baseline) && Typed(latest) && Typed(merged) && Merged(merged, baseline, baseline, latest)
    ensures merged == latest
  {
    hide Wanted, DerivedDraft;
    forall n | Known(n) ensures merged[n] == latest[n] {
      if ShownName(n) {
        assert PairOf(merged, n.budget) == ChosenPair(baseline, baseline, latest, n.budget);
      } else if Listed(n) {
        assert Single(n);
      }
    }
  }

  lemma UneditedNotes(noted: set<Name>, conflicts: set<Name>, config: Config, baseline: Config, latest: Config)
    requires Typed(baseline) && Typed(latest) && Typed(config) && Noted(noted, baseline, baseline, latest)
    requires Extended(conflicts, noted, config, baseline, latest, false)
    ensures conflicts == {}
  {
    hide Wanted, DerivedDraft;
  }

  // ---------------------------------------------------------------- the draft

  /** An open settings page: what it started from, and what was made of that. */
  class Draft {
    var baseline: Config
    var value: Config

    ghost predicate Valid()
      reads this
    {
      Typed(baseline) && Typed(value)
    }

    constructor (current: Config)
      requires Typed(current)
      ensures Valid() && baseline == value == current
    {
      baseline, value := current, current;
    }

    /** Settings that were not edited follow the current configuration, in the draft and in its baseline. */
    method FollowUnedited(current: Config)
      requires Valid() && Typed(current)
      modifies this
      ensures Valid()
      ensures forall n :: Known(n) ==>
        var edited := Listed(n) && old(value)[n] != old(baseline)[n];
        && value[n] == (if Listed(n) && !edited then current[n] else old(value)[n])
        && baseline[n] == (if Listed(n) && !edited then current[n] else old(baseline)[n])
    {
      var edited := CollectEdited(baseline, value);
      value := Followed(value, current, edited);
      baseline := Followed(baseline, current, edited);
    }

    method HasChanges() returns (any: bool)
      requires Valid()
      ensures any <==> exists n :: Listed(n) && value[n] != baseline[n]
    {
      var edited := CollectEdited(baseline, value);
      any := edited != {};
      if any {
        ghost var n :| n in edited;
      }
    }
  }

  method Followed(from: Config, current: Config, edited: set<Name>) returns (c: Config)
    requires Typed(from) && Typed(current)
    ensures Typed(c)
    ensures forall n :: Known(n) ==> c[n] == if Listed(n) && n !in edited then current[n] else from[n]
  {
    hide ListedNames, Listed;
    var names := ListedNames();
    c := from;
    ghost var done: set<Name> := {};
    for i := 0 to |names|
      invariant forall n :: n in done <==> n in names[..i]
      invariant forall n :: n in c <==> n in from
      invariant forall n :: n in from ==> c[n] == if n in done && n !in edited then current[n] else from[n]
    {
      var n := names[i];
      assert names[..i + 1] == names[..i] + [n];
      assert n in names && Listed(n) && Known(n);
      if n !in edited {
        c := c[n := current[n]];
      }
      done := done + {n};
    }
    assert names[..|names|] == names;
    Retyped(c, current, from);
  }

  /** What following makes of a draft and its baseline. */
  ghost predicate Follows(baseline: Config, value: Config, current: Config, baseline': Config, value': Config)
    requires Typed(baseline) && Typed(value) && Typed(current) && Typed(baseline') && Typed(value')
  {
    forall n :: Listed(n) ==>
      && value'[n] == (if value[n] != baseline[n] then value[n] else current[n])
      && baseline'[n] == (if value[n] != baseline[n] then baseline[n] else current[n])
  }

  /** Following keeps the edits: the same settings are edited as before, and merging the draft into the
    * configuration it followed gives each single setting the same value as before. */
  lemma FollowingKeepsEdits(baseline: Config, value: Config, current: Config, baseline': Config, value': Config, n: Name)
    requires Typed(baseline) && Typed(value) && Typed(current) && Typed(baseline') && Typed(value')
    requires Follows(baseline, value, current, baseline', value') && Single(n)
    ensures value'[n] != baseline'[n] <==> value[n] != baseline[n]
    ensures Chosen(baseline', value', current, n) == Chosen(baseline, value, current, n)
    ensures Clashes(baseline', value', current, n) <==> Clashes(baseline, value, current, n)
  {
  }

  /** A shown budget is followed in two parts, its amount and its flag, but merged as one; so following can change
    * what the merge makes of it.  It does not if both parts were edited or neither was; if only the flag was and
    * the amount has not moved; or if only the amount was and either the flag has not moved, and the amount counts
    * as set by hand after as before, or it has, and then the amount has moved too and counts as set by hand. */
  ghost predicate PairFollows(baseline: Config, value: Config, current: Config, value': Config, b: Budget)
    requires Typed(baseline) && Typed(value) && Typed(current) && Typed(value')
  {
    var before, next, live := PairOf(baseline, b), PairOf(value, b), PairOf(current, b);
    DerivedTyped(value);
    DerivedTyped(value');
    var derived, derived' := DerivedDraft(value)[Amount(b)], DerivedDraft(value')[Amount(b)];
    if (next.amount != before.amount) == (next.explicit != before.explicit) then true
    else if next.amount == before.amount then live.amount == before.amount
    else if live.explicit == before.explicit then
      before.explicit.on || (next.amount == derived <==> next.amount == derived')
    else live.amount != before.amount && next.amount != (if before.explicit.on then derived' else derived)
  }

  lemma DerivedTyped(draft: Config)
    requires Typed(draft)
    ensures Typed(DerivedDraft(draft))
  {
    hide Recomputed, Computable;
    if Computable(draft) {
      RecomputeSettles(draft);
    }
  }

  /** And in every other case the merge gives the budget another value or another conflict than before. */
  lemma FollowingPairs(baseline: Config, value: Config, current: Config, baseline': Config, value': Config, b: Budget)
    requires Typed(baseline) && Typed(value) && Typed(current) && Typed(baseline') && Typed(value')
    requires Follows(baseline, value, current, baseline', value') && Shown(b)
    ensures
      && ChosenPair(baseline', value', current, b) == ChosenPair(baseline, value, current, b)
      && (PairClashes(baseline', value', current, b) <==> PairClashes(baseline, value, current, b))
      <==> PairFollows(baseline, value, current, value', b)
  {
    hide DerivedDraft, Typed, Follows, Listed;
    PairParts(baseline, b);
    PairParts(value, b);
    PairParts(current, b);
    FollowedPair(baseline, value, current, baseline', value', b);
    DerivedTyped(value);
    DerivedTyped(value');
    KeysKnown(DerivedDraft(value), DerivedDraft(value'));
  }

  lemma PairParts(c: Config, b: Budget)
    requires Typed(c)
    ensures Amount(b) in c && Explicit(b) in c && c[Amount(b)].Num? && c[Explicit(b)].Flag?
  {
  }

  /** A shown budget after following, part by part. */
  lemma FollowedPair(baseline: Config, value: Config, current: Config, baseline': Config, value': Config, b: Budget)
    requires Typed(baseline) && Typed(value) && Typed(current) && Typed(baseline') && Typed(value')
    requires Follows(baseline, value, current, baseline', value') && Shown(b)
    ensures var before, next, live := PairOf(baseline, b), PairOf(value, b), PairOf(current, b);
      && PairOf(value', b) == Pair(if next.amount != before.amount then next.amount else live.amount,
                                   if next.explicit != before.explicit then next.explicit else live.explicit)
      && PairOf(baseline', b) == Pair(if next.amount != before.amount then before.amount else live.amount,
                                      if next.explicit != before.explicit then before.explicit else live.explicit)
  {
    assert Listed(Amount(b)) && Listed(Explicit(b));
  }

  /** An amount edited while the flag was set elsewhere clashes before following and no longer after it. */
  lemma FollowingForgetsClash(baseline: Config, value: Config, current: Config, baseline': Config, value': Config)
    requires Typed(baseline) && Typed(value) && Typed(current) && Typed(baseline') && Typed(value')
    requires Follows(baseline, value, current, baseline', value')
    requires PairOf(baseline, RxChunk) == Pair(Num(1.0), Flag(false))
    requires PairOf(value, RxChunk) == Pair(Num(2.0), Flag(false))
    requires PairOf(current, RxChunk) == Pair(Num(1.0), Flag(true))
    ensures PairClashes(baseline, value, current, RxChunk) && !PairClashes(baseline', value', current, RxChunk)
  {
    hide DerivedDraft, Typed, Follows, Listed;
    PairParts(baseline, RxChunk);
    PairParts(value, RxChunk);
    PairParts(current, RxChunk);
    FollowedPair(baseline, value, current, baseline', value', RxChunk);
    DerivedTyped(value);
    DerivedTyped(value');
    KeysKnown(DerivedDraft(value), DerivedDraft(value'));
  }
}
