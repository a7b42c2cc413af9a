/** Conditions on records, and the order of scalar values behind them. */
module TableQuery {
  import opened Basics
  import opened Bytes
  import opened Values
  import opened Records

  datatype CompareOp =
    | Equal | NotEqual | Smaller | SmallerEqual | Greater | GreaterEqual | Contains | IsNull | NotNull

  datatype Condition = Condition(field: seq<byte>, op: CompareOp, value: Value)

  /** Doubles other than NaN are ordered like their sign and magnitude; the two zeros are equal. */
  function DoubleKey(bits: u64): int {
    if bits < TWO_63 then bits else TWO_63 - bits
  }

  /** The bits of positive infinity; a greater magnitude is a NaN. */
  const INFINITY: u64 := 0x7FF0_0000_0000_0000

  predicate IsNaN(bits: u64) {
    bits % TWO_63 > INFINITY
  }

  /** The built-in order, in which a NaN is neither smaller nor greater than anything. */
  predicate DoubleLess(a: u64, b: u64) {
    !IsNaN(a) && !IsNaN(b) && DoubleKey(a) < DoubleKey(b)
  }

  /** A scalar that has a place in the order. */
  predicate Ordered(v: Value) {
    IsScalar(v) && (v.Double? ==> !IsNaN(v.bits))
  }

  lemma FiniteOrdered(v: Value)
    requires IsScalar(v) && Finite(v)
    ensures Ordered(v)
  {
  }

  function Sign(smaller: bool, greater: bool): int {
    if smaller then -1 else if greater then 1 else 0
  }

  /** The order of scalars: by type first, then within the type. */
  function CompareValues(a: Value, b: Value): (order: int)
    requires IsScalar(a) && IsScalar(b)
  {
    if TagOf(a) != TagOf(b) then Sign(TagOf(a) < TagOf(b), true)
    else
      match a
      case Null => 0
      case Int(i) => Sign(i < b.number, i > b.number)
      case Double(bits) => Sign(DoubleLess(bits, b.bits), DoubleLess(b.bits, bits))
      case Bool(t) => Sign(!t && b.truth, t && !b.truth)
      case Text(t) => Sign(Less(t, b.text), Less(b.text, t))
      case Blob(s) => Sign(Less(s, b.bytes), Less(b.bytes, s))
      case _ => 0
  }

  /** Scalars are ordered: of two, one is not greater than the other, and with a place in the order for the one
    * in the middle this is transitive. */
  lemma ComparisonOrders(a: Value, b: Value, c: Value)
    requires IsScalar(a) && IsScalar(b) && IsScalar(c)
    ensures CompareValues(a, a) == 0
    ensures CompareValues(b, a) == -CompareValues(a, b)
    ensures Ordered(a) && Ordered(b) && Ordered(c) ==>
      CompareValues(a, b) <= 0 && CompareValues(b, c) <= 0 ==>
      CompareValues(a, c) <= 0 && (CompareValues(a, c) == 0 ==> CompareValues(a, b) == 0 && CompareValues(b, c) == 0)
  {
    hide Less;
    if a.Text? {
      TextOrders(a.text, if b.Text? then b.text else a.text, a.text);
    } else if a.Blob? {
      TextOrders(a.bytes, if b.Blob? then b.bytes else a.bytes, a.bytes);
    }
    if a.Text? && b.Text? && c.Text? {
      TextOrders(a.text, b.text, c.text);
      TextOrders(b.text, c.text, a.text);
      TextOrders(c.text, a.text, b.text);
    } else if a.Blob? && b.Blob? && c.Blob? {
      TextOrders(a.bytes, b.bytes, c.bytes);
      TextOrders(b.bytes, c.bytes, a.bytes);
      TextOrders(c.bytes, a.bytes, b.bytes);
    }
  }

  lemma TextOrders(a: seq<byte>, b: seq<byte>, c: seq<byte>)
    ensures !Less(a, a)
    ensures a == b || (Less(a, b) && !Less(b, a)) || (Less(b, a) && !Less(a, b))
    ensures !Less(b, a) && !Less(c, b) ==> !Less(c, a)
    ensures !Less(b, a) && !Less(c, b) && !Less(a, c) ==> a == b == c
  {
    LessTotal(a, a);
    LessTotal(a, b);
    LessTotal(b, c);
    LessTotal(a, c);
    if Less(a, b) && Less(b, c) {
      LessTransitive(a, b, c);
    }
  }

  /** `a` stands before `b` in a dictionary: they agree up to a place where `a` ends or has the smaller byte. */
  predicate DiffersAt(a: seq<byte>, b: seq<byte>, k: nat) {
    && k <= |a| && k < |b| && a[..k] == b[..k]
    && (k < |a| ==> a[k] < b[k])
  }

  lemma {:induction false} LessMeans(a: seq<byte>, b: seq<byte>)
    ensures Less(a, b) <==> exists k: nat :: DiffersAt(a, b, k)
    decreases |b|
  {
    if b == [] {
    } else if a == [] || a[0] < b[0] {
      assert DiffersAt(a, b, 0);
    } else {
      LessMeans(a[1..], b[1..]);
      if Less(a, b) {
        var k: nat :| DiffersAt(a[1..], b[1..], k);
        LaterPlace(a, b, k);
      }
      if k: nat :| DiffersAt(a, b, k) {
        if k > 0 {
          assert a[..k][0] == b[..k][0];
          LaterPlace(a, b, k - 1);
        }
      }
    }
  }

  lemma LaterPlace(a: seq<byte>, b: seq<byte>, k: nat)
    requires a != [] && b != [] && a[0] == b[0]
    ensures DiffersAt(a[1..], b[1..], k) <==> DiffersAt(a, b, k + 1)
  {
    if k + 1 <= |a| && k + 1 <= |b| {
      assert a[..k + 1] == [a[0]] + a[1..][..k] && b[..k + 1] == [b[0]] + b[1..][..k];
      if a[..k + 1] == b[..k + 1] {
        assert a[1..][..k] == a[..k + 1][1..] && b[1..][..k] == b[..k + 1][1..];
      }
    }
  }

  /** Which of two scalars of one type is the smaller: of integers the number, false before true, of texts and bytes
      the one first in a dictionary. */
  lemma SmallerMeans(a: Value, b: Value)
    requires IsScalar(a) && IsScalar(b)
    ensures a.Int? && b.Int? ==> (CompareValues(a, b) < 0 <==> a.number < b.number)
    ensures a.Bool? && b.Bool? ==> (CompareValues(a, b) < 0 <==> !a.truth && b.truth)
    ensures a.Text? && b.Text? ==> (CompareValues(a, b) < 0 <==> exists k: nat :: DiffersAt(a.text, b.text, k))
    ensures a.Blob? && b.Blob? ==> (CompareValues(a, b) < 0 <==> exists k: nat :: DiffersAt(a.bytes, b.bytes, k))
  {
    hide Less;
    if a.Text? && b.Text? {
      LessMeans(a.text, b.text);
    }
    if a.Blob? && b.Blob? {
      LessMeans(a.bytes, b.bytes);
    }
  }

  /** Of doubles that are no NaN a negative one is smaller than a positive one unless both are zero, and two of one
      sign are ordered by magnitude, reversed if they are negative. */
  lemma SmallerDouble(a: Value, b: Value)
    requires a.Double? && b.Double? && Ordered(a) && Ordered(b)
    ensures var x, y := a.bits % 0x8000_0000_0000_0000, b.bits % 0x8000_0000_0000_0000;
      var negative, other := a.bits >= 0x8000_0000_0000_0000, b.bits >= 0x8000_0000_0000_0000;
      CompareValues(a, b) < 0 <==>
        if negative && !other then x != 0 || y != 0
        else if negative && other then x > y
        else !other && x < y
  {
  }

  /** Scalars of different types are ordered by type: null, integer, double, truth value, text, bytes. */
  lemma SmallerType(a: Value, b: Value)
    requires IsScalar(a) && IsScalar(b)
    ensures a.Null? && !b.Null? ==> CompareValues(a, b) < 0
    ensures a.Int? && (b.Double? || b.Bool? || b.Text? || b.Blob?) ==> CompareValues(a, b) < 0
    ensures a.Double? && (b.Bool? || b.Text? || b.Blob?) ==> CompareValues(a, b) < 0
    ensures a.Bool? && (b.Text? || b.Blob?) ==> CompareValues(a, b) < 0
    ensures a.Text? && b.Blob? ==> CompareValues(a, b) < 0
  {
  }

  /** A NaN equals every double in this comparison, so it is not transitive: one and two are both equal to it. */
  lemma NaNUnordered()
    ensures var one, two, nan := Double(0x3FF0_0000_0000_0000), Double(0x4000_0000_0000_0000), Double(INFINITY + 1);
      CompareValues(one, nan) == 0 && CompareValues(nan, two) == 0 && CompareValues(one, two) < 0
      && CompareValues(two, nan) == 0 && CompareValues(nan, one) == 0 && CompareValues(two, one) > 0
  {
  }

  /** Values compare equal only if they are equal, but for the two zeros and a NaN. */
  lemma EqualInOrder(a: Value, b: Value)
    requires IsScalar(a) && IsScalar(b)
    ensures CompareValues(a, b) == 0 <==>
      || a == b
      || (a.Double? && b.Double? && ({a.bits, b.bits} == {0, TWO_63} || IsNaN(a.bits) || IsNaN(b.bits)))
  {
    if a.Text? && b.Text? {
      TextOrders(a.text, b.text, b.text);
    }
    if a.Blob? && b.Blob? {
      TextOrders(a.bytes, b.bytes, b.bytes);
    }
    if a.Double? && b.Double? && !IsNaN(a.bits) && !IsNaN(b.bits) && CompareValues(a, b) == 0 && a.bits != b.bits {
      assert {a.bits, b.bits} == {0, TWO_63};
    }
  }

  /** The value of the first field with this name. */
  function FieldValue(fields: seq<Field>, values: seq<Value>, name: seq<byte>): Option<Value> {
    if fields == [] || values == [] then None
    else if fields[0].name == name then Some(values[0])
    else FieldValue(fields[1..], values[1..], name)
  }

  /** Field `i` is the first of this name. */
  predicate FirstNamed(fields: seq<Field>, name: seq<byte>, i: nat) {
    i < |fields| && fields[i].name == name && forall j :: 0 <= j < i ==> fields[j].name != name
  }

  lemma {:induction false} FirstOfName(fields: seq<Field>, values: seq<Value>, name: seq<byte>, v: Value)
    ensures FieldValue(fields, values, name) == Some(v) <==>
      exists i: nat :: FirstNamed(fields, name, i) && i < |values| && values[i] == v
  {
    if fields != [] && values != [] {
      FirstOfName(fields[1..], values[1..], name, v);
      if fields[0].name == name {
        assert FirstNamed(fields, name, 0);
      } else {
        if i: nat :| FirstNamed(fields[1..], name, i) && i < |values[1..]| && values[1..][i] == v {
          assert FirstNamed(fields, name, i + 1);
        }
        if i: nat :| FirstNamed(fields, name, i) && i < |values| && values[i] == v {
          assert i > 0;
          assert forall j :: 0 <= j < i - 1 ==> fields[1..][j] == fields[j + 1];
          assert FirstNamed(fields[1..], name, i - 1) && values[1..][i - 1] == v;
        }
      }
    }
  }

  method FindFieldValue(record: Record, schema: Schema, name: seq<byte>) returns (value: Option<Value>)
    ensures value == FieldValue(schema.fields, record.values, name)
  {
    var i := 0;
    while i < |schema.fields| && schema.fields[i].name != name
      invariant 0 <= i <= |schema.fields|
      invariant i <= |record.values| ==>
        FieldValue(schema.fields[i..], record.values[i..], name) == FieldValue(schema.fields, record.values, name)
      invariant i > |record.values| ==> FieldValue(schema.fields, record.values, name) == None
    {
      assert schema.fields[i..][1..] == schema.fields[i + 1..];
      if i < |record.values| {
        assert record.values[i..][1..] == record.values[i + 1..];
      }
      i := i + 1;
    }
    if i == |schema.fields| {
      return None;
    }
    return if i < |record.values| then Some(record.values[i]) else None;
  }

  /** Whether `part` occurs in `whole`. */
  ghost predicate Occurs(part: seq<byte>, whole: seq<byte>) {
    exists i: nat :: OccursAt(part, whole, i)
  }

  predicate OccursAt(part: seq<byte>, whole: seq<byte>, i: nat) {
    i + |part| <= |whole| && whole[i..i + |part|] == part
  }

  /** Whether a value that is there meets a condition. */
  ghost predicate Meets(value: Value, op: CompareOp, operand: Value)
    requires IsScalar(value) && IsScalar(operand)
  {
    if op.IsNull? then value.Null?
    else if op.NotNull? then !value.Null?
    else if TagOf(value) != TagOf(operand) then false
    else if op.Contains? then value.Text? && operand.Text? && Occurs(operand.text, value.text)
    else
      var order := CompareValues(value, operand);
      match op
      case Equal => order == 0
      case NotEqual => order != 0
      case Smaller => order < 0
      case SmallerEqual => order <= 0
      case Greater => order > 0
      case GreaterEqual => order >= 0
      case _ => true
  }

  /** What the comparisons of one value with another of its type have to do with each other. */
  lemma ComparisonsExclude(value: Value, operand: Value)
    requires IsScalar(value) && IsScalar(operand) && TagOf(value) == TagOf(operand)
    ensures Meets(value, Smaller, operand) <==> !Meets(value, GreaterEqual, operand)
    ensures Meets(value, Greater, operand) <==> !Meets(value, SmallerEqual, operand)
    ensures Meets(value, Equal, operand) <==> !Meets(value, NotEqual, operand)
    ensures Meets(value, Equal, operand) <==>
      Meets(value, SmallerEqual, operand) && Meets(value, GreaterEqual, operand)
    ensures Meets(value, Smaller, operand) <==> Meets(operand, Greater, value)
  {
    ComparisonOrders(value, operand, operand);
  }

  /** On integers every operator is plain arithmetic. */
  lemma IntegerConditions(i: i64, j: i64)
    ensures Meets(Int(i), Equal, Int(j)) <==> i == j
    ensures Meets(Int(i), NotEqual, Int(j)) <==> i != j
    ensures Meets(Int(i), Smaller, Int(j)) <==> i < j
    ensures Meets(Int(i), SmallerEqual, Int(j)) <==> i <= j
    ensures Meets(Int(i), Greater, Int(j)) <==> i > j
    ensures Meets(Int(i), GreaterEqual, Int(j)) <==> i >= j
  {
  }

  /** A value meets a test for null exactly when it is null, and of the other operators none unless it is of the
      operand's type. */
  lemma NullConditions(value: Value, op: CompareOp, operand: Value)
    requires IsScalar(value) && IsScalar(operand)
    ensures Meets(value, IsNull, operand) <==> value == Null
    ensures Meets(value, NotNull, operand) <==> value != Null
    ensures op != IsNull && op != NotNull && Meets(value, op, operand) ==> TagOf(value) == TagOf(operand)
    ensures Meets(value, Contains, operand) <==> value.Text? && operand.Text? && Occurs(operand.text, value.text)
  {
  }

  predicate ScalarValues(values: seq<Value>) {
    forall i :: 0 <= i < |values| ==> IsScalar(values[i])
  }

  lemma {:induction false} FieldScalar(fields: seq<Field>, values: seq<Value>, name: seq<byte>)
    requires ScalarValues(values)
    ensures FieldValue(fields, values, name).Some? ==> IsScalar(FieldValue(fields, values, name).value)
  {
    if fields != [] && values != [] {
      FieldScalar(fields[1..], values[1..], name);
    }
  }

  predicate OrderedValues(values: seq<Value>) {
    forall i :: 0 <= i < |values| ==> Ordered(values[i])
  }

  lemma {:induction false} FieldOrdered(fields: seq<Field>, values: seq<Value>, name: seq<byte>)
    requires OrderedValues(values)
    ensures FieldValue(fields, values, name).Some? ==> Ordered(FieldValue(fields, values, name).value)
  {
    hide Ordered;
    if fields != [] && values != [] {
      FieldOrdered(fields[1..], values[1..], name);
    }
  }

  /** A record matches when it has every field asked for and each value meets its condition. */
  ghost predicate Matches(record: Record, schema: Schema, conditions: seq<Condition>)
    requires ScalarValues(record.values) && forall i :: 0 <= i < |conditions| ==> IsScalar(conditions[i].value)
  {
    forall i :: 0 <= i < |conditions| ==> MatchesOne(record, schema, conditions[i])
  }

  ghost predicate MatchesOne(record: Record, schema: Schema, c: Condition)
    requires ScalarValues(record.values) && IsScalar(c.value)
  {
    FieldScalar(schema.fields, record.values, c.field);
    var value := FieldValue(schema.fields, record.values, c.field);
    value.Some? && Meets(value.value, c.op, c.value)
  }

  method MatchesRecord(record: Record, schema: Schema, conditions: seq<Condition>) returns (all: bool)
    requires ScalarValues(record.values)
    requires forall i :: 0 <= i < |conditions| ==> IsScalar(conditions[i].value)
    ensures all <==> Matches(record, schema, conditions)
  {
    for i := 0 to |conditions|
      invariant forall k :: 0 <= k < i ==> MatchesOne(record, schema, conditions[k])
    {
      var condition := conditions[i];
      FieldScalar(schema.fields, record.values, condition.field);
      var found := FindFieldValue(record, schema, condition.field);
      if found.None? {
        return false;
      }
      var value := found.value;
      if condition.op.IsNull? {
        if !value.Null? {
          return false;
        }
        continue;
      }
      if condition.op.NotNull? {
        if value.Null? {
          return false;
        }
        continue;
      }
      if TagOf(value) != TagOf(condition.value) {
        return false;
      }
      if condition.op.Contains? {
        if !value.Text? {
          return false;
        }
        var found := Search(condition.value.text, value.text);
        if !found {
          return false;
        }
        continue;
      }
      var order := CompareValues(value, condition.value);
      if (condition.op.Equal? && order != 0) || (condition.op.NotEqual? && order == 0)
         || (condition.op.Smaller? && order >= 0) || (condition.op.SmallerEqual? && order > 0)
         || (condition.op.Greater? && order <= 0) || (condition.op.GreaterEqual? && order < 0) {
        return false;
      }
    }
    all := true;
  }

  method Search(part: seq<byte>, whole: seq<byte>) returns (found: bool)
    ensures found <==> Occurs(part, whole)
  {
    var i := 0;
    while i <= |whole| - |part|
      invariant 0 <= i && forall k: nat :: k < i ==> !OccursAt(part, whole, k)
    {
      assert OccursAt(part, whole, i) <==> whole[i..i + |part|] == part;
      if whole[i..i + |part|] == part {
        return true;
      }
      i := i + 1;
    }
    found := false;
  }

  // ---------------------------------------------------------------- conditions as values

  function OpNumber(op: CompareOp): (n: nat)
    ensures n < 9
  {
    match op
    case Equal => 0
    case NotEqual => 1
    case Smaller => 2
    case SmallerEqual => 3
    case Greater => 4
    case GreaterEqual => 5
    case Contains => 6
    case IsNull => 7
    case NotNull => 8
  }

  function OpOf(n: nat): CompareOp
    requires n < 9
  {
    if n == 0 then Equal else if n == 1 then NotEqual else if n == 2 then Smaller else if n == 3 then SmallerEqual
    else if n == 4 then Greater else if n == 5 then GreaterEqual else if n == 6 then Contains
    else if n == 7 then IsNull else NotNull
  }

  const CONDITION_LIMITS := Limits(65536, 1, TWO_64 - 1)

  predicate ValidCondition(c: Condition) {
    && c.field != [] && |c.field| <= 4096 && 0 !in c.field
    && IsScalar(c.value)
    && ((c.op.IsNull? || c.op.NotNull?) <==> c.value.Null?)
    && (c.op.Contains? ==> c.value.Text?)
    && Encodable(c.value, CONDITION_LIMITS)
  }

  function ConditionBytes(conditions: seq<Condition>): nat {
    if conditions == [] then 0 else |conditions[0].field| + |Form(conditions[0].value)| + ConditionBytes(conditions[1..])
  }

  /** The conditions a query may have. */
  predicate ValidConditions(conditions: seq<Condition>) {
    && |conditions| <= 16
    && (forall i :: 0 <= i < |conditions| ==> ValidCondition(conditions[i]))
    && ConditionBytes(conditions) <= 65536
  }

  function ConditionItem(c: Condition): Value {
    Array([Text(c.field), Int(OpNumber(c.op)), c.value])
  }

  function ConditionItems(conditions: seq<Condition>): seq<Value> {
    if conditions == [] then [] else [ConditionItem(conditions[0])] + ConditionItems(conditions[1..])
  }

  function ConditionsValue(conditions: seq<Condition>): Option<Value> {
    if ValidConditions(conditions) then Some(Array(ConditionItems(conditions))) else None
  }

  function ConditionFrom(item: Value): Option<Condition> {
    if item.Array? && |item.items| == 3 && item.items[0].Text? && item.items[1].Int?
       && 0 <= item.items[1].number < 9
    then Some(Condition(item.items[0].text, OpOf(item.items[1].number), item.items[2]))
    else None
  }

  function ConditionsFromItems(items: seq<Value>): Option<seq<Condition>> {
    if items == [] then Some([]) else
    match ConditionFrom(items[0])
    case None => None
    case Some(c) =>
      match ConditionsFromItems(items[1..])
      case None => None
      case Some(rest) => Some([c] + rest)
  }

  function ConditionsFromValue(value: Value): Option<seq<Condition>> {
    if !value.Array? then None else
    match ConditionsFromItems(value.items)
    case None => None
    case Some(conditions) => if ValidConditions(conditions) then Some(conditions) else None
  }

  lemma ItemBack(c: Condition, item: Value)
    ensures item == ConditionItem(c) <==> ConditionFrom(item) == Some(c)
  {
    if ConditionFrom(item) == Some(c) {
      assert item.items == ConditionItem(c).items;
    }
  }

  lemma {:induction false} ItemsBack(conditions: seq<Condition>)
    ensures ConditionsFromItems(ConditionItems(conditions)) == Some(conditions)
  {
    hide ConditionItem, ConditionFrom;
    if conditions != [] {
      ItemsBack(conditions[1..]);
      ItemBack(conditions[0], ConditionItem(conditions[0]));
      assert ConditionItems(conditions) == [ConditionItem(conditions[0])] + ConditionItems(conditions[1..]);
      assert ConditionItems(conditions)[1..] == ConditionItems(conditions[1..]);
      assert conditions == [conditions[0]] + conditions[1..];
    }
  }

  lemma {:induction false} ItemsForth(items: seq<Value>)
    requires ConditionsFromItems(items).Some?
    ensures ConditionItems(ConditionsFromItems(items).value) == items
  {
    hide ConditionItem, ConditionFrom;
    if items != [] {
      ItemsForth(items[1..]);
      var conditions := ConditionsFromItems(items).value;
      ItemBack(conditions[0], items[0]);
      assert conditions[1..] == ConditionsFromItems(items[1..]).value;
      assert items == [items[0]] + items[1..];
    }
  }

  /** Saved conditions come back as they were, and only valid ones come back at all. */
  lemma ConditionsTrip(conditions: seq<Condition>, value: Value)
    ensures ConditionsValue(conditions) == Some(value) <==> ConditionsFromValue(value) == Some(conditions)
  {
    hide ValidConditions, ConditionItems, ConditionsFromItems;
    if ConditionsValue(conditions) == Some(value) {
      ItemsBack(conditions);
    }
    if ConditionsFromValue(value) == Some(conditions) {
      ItemsForth(value.items);
    }
  }
}
