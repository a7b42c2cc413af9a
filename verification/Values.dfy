/**
 Structured values and their tagged binary form (`encodeValue` / `decodeValue`).
 Text and keys are byte strings; a double is its 64-bit pattern; an object is the
 key-ordered entry list of the source's `std::map`.
 */
module Values {
  import opened Bytes

  datatype Value =
    | Null
    | Int(number: i64)
    | Double(bits: u64)
    | Bool(truth: bool)
    | Text(text: seq<byte>)
    | Blob(bytes: seq<byte>)
    | Array(items: seq<Value>)
    | Object(entries: seq<Entry>)

  datatype Entry = Entry(key: seq<byte>, value: Value)

  datatype Limits = Limits(maxBytes: u64, maxDepth: u64, maxNodes: u64)

  /** Exponent bits not all ones: neither an infinity nor a NaN. */
  predicate FiniteBits(bits: u64) {
    bits / 0x10_0000_0000_0000 % 2048 != 2047
  }

  // ----- what a value costs against the limits -----

  predicate Finite(v: Value)
    decreases v, 1
  {
    match v
    case Double(bits) => FiniteBits(bits)
    case Array(items) => FiniteItems(items)
    case Object(entries) => FiniteEntries(entries)
    case _ => true
  }

  predicate FiniteItems(items: seq<Value>)
    decreases items, 0
  {
    items == [] || (Finite(items[0]) && FiniteItems(items[1..]))
  }

  predicate FiniteEntries(entries: seq<Entry>)
    decreases entries, 0
  {
    entries == [] || (Finite(entries[0].value) && FiniteEntries(entries[1..]))
  }

  /** The number of values in the tree, the value itself included. */
  function Nodes(v: Value): (n: nat)
    ensures n >= 1
    decreases v, 1
  {
    match v
    case Array(items) => 1 + NodesOfItems(items)
    case Object(entries) => 1 + NodesOfEntries(entries)
    case _ => 1
  }

  function NodesOfItems(items: seq<Value>): nat
    decreases items, 0
  {
    if items == [] then 0 else Nodes(items[0]) + NodesOfItems(items[1..])
  }

  function NodesOfEntries(entries: seq<Entry>): nat
    decreases entries, 0
  {
    if entries == [] then 0 else Nodes(entries[0].value) + NodesOfEntries(entries[1..])
  }

  /** No part of the tree lies more than `room` levels below the value. */
  predicate Shallow(v: Value, room: int)
    decreases v, 1
  {
    && room >= 0
    && match v
       case Array(items) => ShallowItems(items, room - 1)
       case Object(entries) => ShallowEntries(entries, room - 1)
       case _ => true
  }

  predicate ShallowItems(items: seq<Value>, room: int)
    decreases items, 0
  {
    items == [] || (Shallow(items[0], room) && ShallowItems(items[1..], room))
  }

  predicate ShallowEntries(entries: seq<Entry>, room: int)
    decreases entries, 0
  {
    entries == [] || (Shallow(entries[0].value, room) && ShallowEntries(entries[1..], room))
  }

  // ----- the binary form -----

  function Sized(s: seq<byte>): (r: seq<byte>)
    ensures |r| == 8 + |s|
  {
    LittleEndian(8, |s|) + s
  }

  predicate IsScalar(v: Value) {
    !v.Array? && !v.Object?
  }

  function TagOf(v: Value): byte {
    match v
    case Null => 0
    case Int(_) => 1
    case Double(_) => 2
    case Bool(_) => 3
    case Text(_) => 4
    case Blob(_) => 5
    case Array(_) => 6
    case Object(_) => 7
  }

  /** The bytes after the tag of a scalar. */
  function ScalarBody(v: Value): seq<byte>
    requires IsScalar(v)
  {
    match v
    case Null => []
    case Int(number) => LittleEndian(8, ToUnsigned(number))
    case Double(bits) => LittleEndian(8, bits)
    case Bool(truth) => [if truth then 1 else 0]
    case Text(text) => Sized(text)
    case Blob(bytes) => Sized(bytes)
  }

  function Form(v: Value): (s: seq<byte>)
    ensures |s| >= 1
    decreases v, 2
  {
    [TagOf(v)] + FormBody(v)
  }

  function FormBody(v: Value): seq<byte>
    decreases v, 1
  {
    match v
    case Array(items) => LittleEndian(8, |items|) + FormOfItems(items)
    case Object(entries) => LittleEndian(8, |entries|) + FormOfEntries(entries)
    case _ => ScalarBody(v)
  }

  function FormOfItems(items: seq<Value>): (s: seq<byte>)
    ensures |s| >= |items|
    decreases items, 0
  {
    if items == [] then [] else Form(items[0]) + FormOfItems(items[1..])
  }

  function FormOfEntries(entries: seq<Entry>): (s: seq<byte>)
    ensures |s| >= |entries|
    decreases entries, 0
  {
    if entries == [] then []
    else Sized(entries[0].key) + Form(entries[0].value) + FormOfEntries(entries[1..])
  }

  // ----- reading the binary form back, object entries in input order -----

  datatype Parsed<T> = Bad | Good(value: T, rest: seq<byte>, nodes: nat)

  /** A length prefix and that many bytes; a length beyond the input is refused before anything is taken. */
  function TakeSized(input: seq<byte>, nodes: nat): (p: Parsed<seq<byte>>)
    ensures p.Good? ==> |p.rest| < |input|
  {
    if |input| < 8 then Bad else
    var size := Number(input[..8]);
    if size > |input| - 8 then Bad else Good(input[8..8 + size], input[8 + size..], nodes)
  }

  /** A length prefix alone, with the same refusal. */
  function TakeCount(input: seq<byte>): (p: Parsed<nat>)
    ensures p.Good? ==> |p.rest| < |input|
  {
    if |input| < 8 || Number(input[..8]) > |input| - 8 then Bad
    else Good(Number(input[..8]), input[8..], 0)
  }

  function TakeWord(input: seq<byte>): (p: Parsed<u64>)
    ensures p.Good? ==> |p.rest| < |input|
  {
    if |input| < 8 then Bad else
    Word64(0, input[..8]);
    Good(Number(input[..8]), input[8..], 0)
  }

  function ParseScalar(tag: byte, body: seq<byte>, nodes: nat): (p: Parsed<Value>)
    ensures p.Good? ==> |p.rest| <= |body|
  {
    if tag == 0 then Good(Null, body, nodes)
    else if tag == 1 then
      match TakeWord(body)
      case Bad => Bad
      case Good(word, rest, _) => Good(Int(ToSigned(word)), rest, nodes)
    else if tag == 2 then
      match TakeWord(body)
      case Bad => Bad
      case Good(word, rest, _) => if FiniteBits(word) then Good(Double(word), rest, nodes) else Bad
    else if tag == 3 then
      if body == [] || body[0] > 1 then Bad else Good(Bool(body[0] != 0), body[1..], nodes)
    else if tag == 4 || tag == 5 then
      match TakeSized(body, nodes)
      case Bad => Bad
      case Good(s, rest, _) => Good(if tag == 4 then Text(s) else Blob(s), rest, nodes)
    else Bad
  }

  function Parse(input: seq<byte>, depth: nat, nodes: nat, limits: Limits): (p: Parsed<Value>)
    ensures p.Good? ==> |p.rest| < |input|
    decreases |input|, 0
  {
    if nodes >= limits.maxNodes || depth > limits.maxDepth || input == [] then Bad
    else if input[0] == 6 then
      match TakeCount(input[1..])
      case Bad => Bad
      case Good(count, body, _) =>
        match ParseItems(body, count, depth + 1, nodes + 1, limits)
        case Bad => Bad
        case Good(items, rest, n) => Good(Array(items), rest, n)
    else if input[0] == 7 then
      match TakeCount(input[1..])
      case Bad => Bad
      case Good(count, body, _) =>
        match ParseEntries(body, count, depth + 1, nodes + 1, limits)
        case Bad => Bad
        case Good(entries, rest, n) => Good(Object(entries), rest, n)
    else ParseScalar(input[0], input[1..], nodes + 1)
  }

  function ParseItems(input: seq<byte>, count: nat, depth: nat, nodes: nat, limits: Limits): (p: Parsed<seq<Value>>)
    ensures p.Good? ==> |p.rest| <= |input|
    decreases |input|, count + 1
  {
    if count == 0 then Good([], input, nodes) else
    match Parse(input, depth, nodes, limits)
    case Bad => Bad
    case Good(head, rest, n) =>
      match ParseItems(rest, count - 1, depth, n, limits)
      case Bad => Bad
      case Good(tail, rest', n') => Good([head] + tail, rest', n')
  }

  function ParseEntries(input: seq<byte>, count: nat, depth: nat, nodes: nat, limits: Limits): (p: Parsed<seq<Entry>>)
    ensures p.Good? ==> |p.rest| <= |input|
    decreases |input|, count + 1
  {
    if count == 0 then Good([], input, nodes) else
    match TakeSized(input, nodes)
    case Bad => Bad
    case Good(key, afterKey, _) =>
      match Parse(afterKey, depth, nodes, limits)
      case Bad => Bad
      case Good(value, rest, n) =>
        match ParseEntries(rest, count - 1, depth, n, limits)
        case Bad => Bad
        case Good(tail, rest', n') => Good([Entry(key, value)] + tail, rest', n')
  }

  // ----- the two directions of the parser -----

  lemma TakeSizedForm(s: seq<byte>, rest: seq<byte>, nodes: nat)
    requires |s| < TWO_64
    ensures TakeSized(Sized(s) + rest, nodes) == Good(s, rest, nodes)
  {
    var input := Sized(s) + rest;
    assert input[..8] == LittleEndian(8, |s|);
    Word64(|s|, input[..8]);
    assert input[8..8 + |s|] == s && input[8 + |s|..] == rest;
  }

  lemma TakeSizedSound(input: seq<byte>, nodes: nat)
    requires TakeSized(input, nodes).Good?
    ensures var p := TakeSized(input, nodes); p.nodes == nodes && input == Sized(p.value) + p.rest
  {
    var p := TakeSized(input, nodes);
    LittleEndianOfNumber(input[..8]);
    assert input == input[..8] + input[8..8 + |p.value|] + input[8 + |p.value|..];
  }

  lemma TakeWordForm(word: u64, rest: seq<byte>)
    ensures TakeWord(LittleEndian(8, word) + rest) == Good(word, rest, 0)
  {
    var input := LittleEndian(8, word) + rest;
    assert input[..8] == LittleEndian(8, word) && input[8..] == rest;
    Word64(word, input[..8]);
  }

  lemma TakeWordSound(input: seq<byte>)
    requires TakeWord(input).Good?
    ensures var p := TakeWord(input); input == LittleEndian(8, p.value) + p.rest
  {
    Word64(0, input[..8]);
    assert input == input[..8] + input[8..];
  }

  lemma TakeCountForm(count: u64, rest: seq<byte>)
    requires count <= |rest|
    ensures TakeCount(LittleEndian(8, count) + rest) == Good(count, rest, 0)
  {
    var input := LittleEndian(8, count) + rest;
    assert input[..8] == LittleEndian(8, count) && input[8..] == rest;
    Word64(count, input[..8]);
  }

  lemma TakeCountSound(input: seq<byte>)
    requires TakeCount(input).Good?
    ensures var p := TakeCount(input); input == LittleEndian(8, p.value) + p.rest
  {
    Word64(0, input[..8]);
    assert input == input[..8] + input[8..];
  }

  lemma ParseScalarForm(v: Value, rest: seq<byte>, nodes: nat)
    requires IsScalar(v) && Finite(v) && |Form(v)| < TWO_64
    ensures ParseScalar(TagOf(v), ScalarBody(v) + rest, nodes) == Good(v, rest, nodes)
  {
    match v
    case Null => assert ScalarBody(v) + rest == rest;
    case Int(number) => TakeWordForm(ToUnsigned(number), rest);
    case Double(bits) => TakeWordForm(bits, rest);
    case Bool(truth) => assert (ScalarBody(v) + rest)[1..] == rest;
    case Text(text) => TakeSizedForm(text, rest, nodes);
    case Blob(bytes) => TakeSizedForm(bytes, rest, nodes);
  }

  lemma ParseScalarSound(tag: byte, body: seq<byte>, nodes: nat)
    requires ParseScalar(tag, body, nodes).Good?
    ensures var p := ParseScalar(tag, body, nodes);
      IsScalar(p.value) && TagOf(p.value) == tag && Finite(p.value) && p.nodes == nodes
      && body == ScalarBody(p.value) + p.rest
  {
    if tag == 1 || tag == 2 {
      TakeWordSound(body);
    } else if tag == 3 {
      assert body == [body[0]] + body[1..];
    } else if tag == 4 || tag == 5 {
      TakeSizedSound(body, nodes);
    }
  }

  /** Completeness: within the limits the form of a value is parsed back, and nothing after it is touched. */
  lemma {:induction false} ParseForm(v: Value, rest: seq<byte>, depth: nat, nodes: nat, limits: Limits)
    requires |Form(v)| < TWO_64
    requires Finite(v) && Shallow(v, limits.maxDepth - depth) && nodes + Nodes(v) <= limits.maxNodes
    ensures Parse(Form(v) + rest, depth, nodes, limits) == Good(v, rest, nodes + Nodes(v))
    decreases v, 1
  {
    hide LittleEndian, Number, ScalarBody, ParseScalar, TakeSized, TakeCount, Sized, FiniteBits;
    hide FormOfItems, FormOfEntries, ParseItems, ParseEntries, NodesOfItems, NodesOfEntries;
    hide FiniteItems, FiniteEntries, ShallowItems, ShallowEntries;
    var input := Form(v) + rest;
    if v.Array? {
      var items := v.items;
      assert input[1..] == LittleEndian(8, |items|) + (FormOfItems(items) + rest);
      TakeCountForm(|items|, FormOfItems(items) + rest);
      ParseFormOfItems(items, rest, depth + 1, nodes + 1, limits);
    } else if v.Object? {
      var entries := v.entries;
      assert input[1..] == LittleEndian(8, |entries|) + (FormOfEntries(entries) + rest);
      TakeCountForm(|entries|, FormOfEntries(entries) + rest);
      ParseFormOfEntries(entries, rest, depth + 1, nodes + 1, limits);
    } else {
      assert input[1..] == ScalarBody(v) + rest;
      ParseScalarForm(v, rest, nodes + 1);
    }
  }

  lemma {:induction false} ParseFormOfItems(items: seq<Value>, rest: seq<byte>, depth: nat, nodes: nat, limits: Limits)
    requires |FormOfItems(items)| < TWO_64
    requires FiniteItems(items) && ShallowItems(items, limits.maxDepth - depth)
    requires nodes + NodesOfItems(items) <= limits.maxNodes
    ensures ParseItems(FormOfItems(items) + rest, |items|, depth, nodes, limits)
         == Good(items, rest, nodes + NodesOfItems(items))
    decreases items, 0
  {
    hide LittleEndian, Number, TagOf, ScalarBody, ParseScalar, TakeSized, TakeCount, Sized, FiniteBits;
    if items == [] {
      assert FormOfItems(items) + rest == rest;
    } else {
      var tail := FormOfItems(items[1..]) + rest;
      assert FormOfItems(items) + rest == Form(items[0]) + tail;
      ParseForm(items[0], tail, depth, nodes, limits);
      ParseFormOfItems(items[1..], rest, depth, nodes + Nodes(items[0]), limits);
      assert items == [items[0]] + items[1..];
    }
  }

  lemma Regroup(a: seq<byte>, b: seq<byte>, c: seq<byte>, d: seq<byte>)
    ensures a + b + c + d == a + (b + (c + d))
  {
  }

  lemma EntryFormSplits(entries: seq<Entry>, rest: seq<byte>)
    requires entries != []
    ensures var e := entries[0];
      && FormOfEntries(entries) + rest == Sized(e.key) + (Form(e.value) + (FormOfEntries(entries[1..]) + rest))
      && |e.key| + |Form(e.value)| + |FormOfEntries(entries[1..])| <= |FormOfEntries(entries)|
  {
    hide LittleEndian, Form, Sized;
    var e := entries[0];
    assert FormOfEntries(entries) == Sized(e.key) + Form(e.value) + FormOfEntries(entries[1..]);
    Regroup(Sized(e.key), Form(e.value), FormOfEntries(entries[1..]), rest);
  }

  lemma {:induction false} ParseFormOfEntries(entries: seq<Entry>, rest: seq<byte>, depth: nat, nodes: nat, limits: Limits)
    requires |FormOfEntries(entries)| < TWO_64
    requires FiniteEntries(entries) && ShallowEntries(entries, limits.maxDepth - depth)
    requires nodes + NodesOfEntries(entries) <= limits.maxNodes
    ensures ParseEntries(FormOfEntries(entries) + rest, |entries|, depth, nodes, limits)
         == Good(entries, rest, nodes + NodesOfEntries(entries))
    decreases entries, 0
  {
    hide LittleEndian, Number, TagOf, ScalarBody, ParseScalar, TakeSized, TakeCount, Sized, FiniteBits, Form, Parse;
    if entries == [] {
      assert FormOfEntries(entries) + rest == rest;
    } else {
      var e := entries[0];
      var tail := FormOfEntries(entries[1..]) + rest;
      EntryFormSplits(entries, rest);
      TakeSizedForm(e.key, Form(e.value) + tail, nodes);
      ParseForm(e.value, tail, depth, nodes, limits);
      ParseFormOfEntries(entries[1..], rest, depth, nodes + Nodes(e.value), limits);
      assert entries == [e] + entries[1..];
    }
  }

  /** Soundness: whatever is parsed is within the limits, and its form is exactly the bytes consumed. */
  lemma {:induction false} ParseSound(input: seq<byte>, depth: nat, nodes: nat, limits: Limits)
    requires Parse(input, depth, nodes, limits).Good?
    ensures var p := Parse(input, depth, nodes, limits);
      && input == Form(p.value) + p.rest
      && Finite(p.value) && Shallow(p.value, limits.maxDepth - depth)
      && p.nodes == nodes + Nodes(p.value) <= limits.maxNodes
    decreases |input|, 0
  {
    hide LittleEndian, Number, ScalarBody, ParseScalar, TakeSized, TakeCount, Sized, FiniteBits;
    hide FormOfItems, FormOfEntries, ParseItems, ParseEntries, NodesOfItems, NodesOfEntries;
    hide FiniteItems, FiniteEntries, ShallowItems, ShallowEntries;
    assert input == [input[0]] + input[1..];
    if input[0] == 6 {
      var c := TakeCount(input[1..]);
      TakeCountSound(input[1..]);
      ParseItemsSound(c.rest, c.value, depth + 1, nodes + 1, limits);
      var p := ParseItems(c.rest, c.value, depth + 1, nodes + 1, limits);
      Regroup([input[0]], LittleEndian(8, c.value), FormOfItems(p.value), p.rest);
    } else if input[0] == 7 {
      var c := TakeCount(input[1..]);
      TakeCountSound(input[1..]);
      ParseEntriesSound(c.rest, c.value, depth + 1, nodes + 1, limits);
      var p := ParseEntries(c.rest, c.value, depth + 1, nodes + 1, limits);
      Regroup([input[0]], LittleEndian(8, c.value), FormOfEntries(p.value), p.rest);
    } else {
      ParseScalarSound(input[0], input[1..], nodes + 1);
    }
  }

  lemma {:induction false} ParseItemsSound(input: seq<byte>, count: nat, depth: nat, nodes: nat, limits: Limits)
    requires nodes <= limits.maxNodes
    requires ParseItems(input, count, depth, nodes, limits).Good?
    ensures var p := ParseItems(input, count, depth, nodes, limits);
      && input == FormOfItems(p.value) + p.rest && |p.value| == count
      && FiniteItems(p.value) && ShallowItems(p.value, limits.maxDepth - depth)
      && p.nodes == nodes + NodesOfItems(p.value) <= limits.maxNodes
    decreases |input|, count + 1
  {
    hide LittleEndian, Number, TagOf, ScalarBody, ParseScalar, TakeSized, TakeCount, Sized, FiniteBits;
    if count > 0 {
      var head := Parse(input, depth, nodes, limits);
      var p := ParseItems(input, count, depth, nodes, limits);
      ParseSound(input, depth, nodes, limits);
      ParseItemsSound(head.rest, count - 1, depth, head.nodes, limits);
      assert p.value[1..] == ParseItems(head.rest, count - 1, depth, head.nodes, limits).value;
    }
  }

  lemma {:induction false} ParseEntriesSound(input: seq<byte>, count: nat, depth: nat, nodes: nat, limits: Limits)
    requires nodes <= limits.maxNodes
    requires ParseEntries(input, count, depth, nodes, limits).Good?
    ensures var p := ParseEntries(input, count, depth, nodes, limits);
      && input == FormOfEntries(p.value) + p.rest && |p.value| == count
      && FiniteEntries(p.value) && ShallowEntries(p.value, limits.maxDepth - depth)
      && p.nodes == nodes + NodesOfEntries(p.value) <= limits.maxNodes
    decreases |input|, count + 1
  {
    hide LittleEndian, Number, TagOf, ScalarBody, ParseScalar, TakeSized, TakeCount, Sized, FiniteBits;
    if count > 0 {
      var key := TakeSized(input, nodes);
      var head := Parse(key.rest, depth, nodes, limits);
      var p := ParseEntries(input, count, depth, nodes, limits);
      TakeSizedSound(input, nodes);
      ParseSound(key.rest, depth, nodes, limits);
      ParseEntriesSound(head.rest, count - 1, depth, head.nodes, limits);
      assert p.value[1..] == ParseEntries(head.rest, count - 1, depth, head.nodes, limits).value;
    }
  }

  // ----- key-ordered objects -----

  /** Byte-wise lexicographic order, the order of the source's string-keyed map. */
  predicate Less(a: seq<byte>, b: seq<byte>) {
    b != [] && (a == [] || a[0] < b[0] || (a[0] == b[0] && Less(a[1..], b[1..])))
  }

  lemma {:induction false} LessTotal(a: seq<byte>, b: seq<byte>)
    ensures Less(a, b) || a == b || Less(b, a)
    ensures !(Less(a, b) && Less(b, a)) && !Less(a, a)
    decreases |a|
  {
    if a != [] {
      LessTotal(a[1..], a[1..]);
      if b != [] {
        LessTotal(a[1..], b[1..]);
        assert a == [a[0]] + a[1..] && b == [b[0]] + b[1..];
      }
    }
  }

  lemma {:induction false} LessTransitive(a: seq<byte>, b: seq<byte>, c: seq<byte>)
    requires Less(a, b) && Less(b, c)
    ensures Less(a, c)
    decreases |a|
  {
    if a != [] && a[0] == b[0] == c[0] {
      LessTransitive(a[1..], b[1..], c[1..]);
    }
  }

  predicate Has(entries: seq<Entry>, key: seq<byte>) {
    exists i :: 0 <= i < |entries| && entries[i].key == key
  }

  predicate DistinctKeys(entries: seq<Entry>) {
    forall i, j :: 0 <= i < j < |entries| ==> entries[i].key != entries[j].key
  }

  predicate AscendingKeys(entries: seq<Entry>) {
    forall i, j :: 0 <= i < j < |entries| ==> Less(entries[i].key, entries[j].key)
  }

  /** Every object in the tree lists its keys in ascending order: the invariant of a map-based value. */
  predicate Ascending(v: Value)
    decreases v, 1
  {
    match v
    case Array(items) => AscendingItems(items)
    case Object(entries) => AscendingKeys(entries) && AscendingEntries(entries)
    case _ => true
  }

  predicate AscendingItems(items: seq<Value>)
    decreases items, 0
  {
    items == [] || (Ascending(items[0]) && AscendingItems(items[1..]))
  }

  predicate AscendingEntries(entries: seq<Entry>)
    decreases entries, 0
  {
    entries == [] || (Ascending(entries[0].value) && AscendingEntries(entries[1..]))
  }

  /** No object in the tree repeats a key. */
  predicate Distinct(v: Value)
    decreases v, 1
  {
    match v
    case Array(items) => DistinctItems(items)
    case Object(entries) => DistinctKeys(entries) && DistinctEntries(entries)
    case _ => true
  }

  predicate DistinctItems(items: seq<Value>)
    decreases items, 0
  {
    items == [] || (Distinct(items[0]) && DistinctItems(items[1..]))
  }

  predicate DistinctEntries(entries: seq<Entry>)
    decreases entries, 0
  {
    entries == [] || (Distinct(entries[0].value) && DistinctEntries(entries[1..]))
  }

  /** Inserting a new key into a map. */
  function Insert(entries: seq<Entry>, e: Entry): (r: seq<Entry>)
    ensures |r| == |entries| + 1
  {
    if entries == [] then [e]
    else if Less(e.key, entries[0].key) then [e] + entries
    else [entries[0]] + Insert(entries[1..], e)
  }

  /** The map built by inserting the entries one after the other. */
  function Collect(entries: seq<Entry>): (r: seq<Entry>)
    ensures |r| == |entries|
  {
    if entries == [] then [] else Insert(Collect(entries[..|entries| - 1]), entries[|entries| - 1])
  }

  /** The value a raw tree stands for: every entry list collected into a map. */
  function Normal(v: Value): Value
    decreases v, 1
  {
    match v
    case Array(items) => Array(NormalItems(items))
    case Object(entries) => Object(Collect(NormalEntries(entries)))
    case _ => v
  }

  function NormalItems(items: seq<Value>): (r: seq<Value>)
    ensures |r| == |items|
    decreases items, 0
  {
    if items == [] then [] else [Normal(items[0])] + NormalItems(items[1..])
  }

  function NormalEntries(entries: seq<Entry>): (r: seq<Entry>)
    ensures |r| == |entries|
    ensures forall i :: 0 <= i < |entries| ==> r[i].key == entries[i].key
    decreases entries, 0
  {
    if entries == [] then []
    else [Entry(entries[0].key, Normal(entries[0].value))] + NormalEntries(entries[1..])
  }

  /** `decodeValue`: the whole input, within the limits, no repeated key. */
  function Decode(input: seq<byte>, limits: Limits): Parsed<Value> {
    if |input| > limits.maxBytes then Bad else
    match Parse(input, 0, 0, limits)
    case Bad => Bad
    case Good(raw, rest, n) => if rest == [] && Distinct(raw) then Good(Normal(raw), [], n) else Bad
  }

  /** When `encodeValue` succeeds. */
  predicate Encodable(v: Value, limits: Limits) {
    Finite(v) && Shallow(v, limits.maxDepth) && Nodes(v) <= limits.maxNodes && |Form(v)| <= limits.maxBytes
  }

  // ----- collecting changes neither size nor cost -----

  /** What a list of entries costs, in one record. */
  datatype Cost = Cost(bytes: nat, nodes: nat, finite: bool, shallow: bool)

  function CostOf(entries: seq<Entry>, room: int): Cost {
    Cost(|FormOfEntries(entries)|, NodesOfEntries(entries), FiniteEntries(entries), ShallowEntries(entries, room))
  }

  function Add(e: Entry, c: Cost, room: int): Cost {
    Cost(8 + |e.key| + |Form(e.value)| + c.bytes, Nodes(e.value) + c.nodes,
         Finite(e.value) && c.finite, Shallow(e.value, room) && c.shallow)
  }

  lemma CostCons(e: Entry, tail: seq<Entry>, room: int)
    ensures CostOf([e] + tail, room) == Add(e, CostOf(tail, room), room)
    ensures AscendingEntries([e] + tail) <==> Ascending(e.value) && AscendingEntries(tail)
  {
    assert ([e] + tail)[1..] == tail;
  }

  lemma {:induction false} CostInsert(entries: seq<Entry>, e: Entry, room: int)
    ensures CostOf(Insert(entries, e), room) == Add(e, CostOf(entries, room), room)
    ensures AscendingEntries(Insert(entries, e)) <==> Ascending(e.value) && AscendingEntries(entries)
  {
    if entries == [] || Less(e.key, entries[0].key) {
      CostCons(e, entries, room);
      assert [e] + [] == [e];
    } else {
      CostInsert(entries[1..], e, room);
      CostCons(entries[0], Insert(entries[1..], e), room);
      CostCons(entries[0], entries[1..], room);
      assert entries == [entries[0]] + entries[1..];
    }
  }

  lemma {:induction false} CostSnoc(entries: seq<Entry>, e: Entry, room: int)
    ensures CostOf(entries + [e], room) == Add(e, CostOf(entries, room), room)
    ensures AscendingEntries(entries + [e]) <==> Ascending(e.value) && AscendingEntries(entries)
  {
    if entries == [] {
      CostCons(e, [], room);
      assert [e] + [] == [e] == entries + [e];
    } else {
      CostSnoc(entries[1..], e, room);
      CostCons(entries[0], entries[1..] + [e], room);
      CostCons(entries[0], entries[1..], room);
      assert entries + [e] == [entries[0]] + (entries[1..] + [e]);
      assert entries == [entries[0]] + entries[1..];
    }
  }

  lemma {:induction false} CostCollect(entries: seq<Entry>, room: int)
    ensures CostOf(Collect(entries), room) == CostOf(entries, room)
    ensures AscendingEntries(Collect(entries)) <==> AscendingEntries(entries)
    decreases |entries|
  {
    if entries != [] {
      var init, last := entries[..|entries| - 1], entries[|entries| - 1];
      assert entries == init + [last];
      CostCollect(init, room);
      CostSnoc(init, last, room);
      CostInsert(Collect(init), last, room);
    }
  }

  lemma {:induction false} InsertHas(entries: seq<Entry>, e: Entry, key: seq<byte>)
    ensures Has(Insert(entries, e), key) <==> key == e.key || Has(entries, key)
  {
    var r := Insert(entries, e);
    if entries == [] || Less(e.key, entries[0].key) {
      assert r == [e] + entries;
      assert r[0] == e && forall i :: 1 <= i < |r| ==> r[i] == entries[i - 1];
      assert forall i :: 0 <= i < |entries| ==> entries[i] == r[i + 1];
    } else {
      var tail := entries[1..];
      InsertHas(tail, e, key);
      assert r[0] == entries[0] && forall i :: 1 <= i < |r| ==> r[i] == Insert(tail, e)[i - 1];
      assert forall i :: 0 <= i < |r| - 1 ==> Insert(tail, e)[i] == r[i + 1];
      assert forall i :: 0 <= i < |tail| ==> tail[i] == entries[i + 1];
      assert forall i :: 1 <= i < |entries| ==> entries[i] == tail[i - 1];
    }
  }

  lemma {:induction false} InsertAscending(entries: seq<Entry>, e: Entry)
    requires AscendingKeys(entries) && !Has(entries, e.key)
    ensures AscendingKeys(Insert(entries, e))
  {
    if entries != [] {
      var head, tail := entries[0], entries[1..];
      LessTotal(e.key, head.key);
      if Less(e.key, head.key) {
        forall i | 0 < i < |entries|
          ensures Less(e.key, entries[i].key)
        {
          LessTransitive(e.key, head.key, entries[i].key);
        }
      } else {
        assert head.key != e.key;
        assert forall i :: 0 <= i < |tail| ==> tail[i] == entries[i + 1];
        InsertAscending(tail, e);
        var r := Insert(tail, e);
        forall i | 0 <= i < |r|
          ensures Less(head.key, r[i].key)
        {
          InsertHas(tail, e, r[i].key);
        }
      }
    }
  }

  lemma {:induction false} CollectHas(entries: seq<Entry>, key: seq<byte>)
    ensures Has(Collect(entries), key) <==> Has(entries, key)
    decreases |entries|
  {
    if entries != [] {
      var init, last := entries[..|entries| - 1], entries[|entries| - 1];
      CollectHas(init, key);
      InsertHas(Collect(init), last, key);
      assert forall i :: 0 <= i < |init| ==> init[i] == entries[i];
    }
  }

  lemma {:induction false} CollectAscending(entries: seq<Entry>)
    requires DistinctKeys(entries)
    ensures AscendingKeys(Collect(entries))
    decreases |entries|
  {
    if entries != [] {
      var init, last := entries[..|entries| - 1], entries[|entries| - 1];
      CollectAscending(init);
      CollectHas(init, last.key);
      InsertAscending(Collect(init), last);
    }
  }

  lemma {:induction false} InsertLast(entries: seq<Entry>, e: Entry)
    requires AscendingKeys(entries + [e])
    ensures Insert(entries, e) == entries + [e]
  {
    if entries != [] {
      var all := entries + [e];
      assert all[|entries|] == e && all[0] == entries[0];
      LessTotal(e.key, entries[0].key);
      assert entries[1..] + [e] == all[1..];
      InsertLast(entries[1..], e);
    }
  }

  lemma {:induction false} CollectKeeps(entries: seq<Entry>)
    requires AscendingKeys(entries)
    ensures Collect(entries) == entries
    decreases |entries|
  {
    if entries != [] {
      var init, last := entries[..|entries| - 1], entries[|entries| - 1];
      CollectKeeps(init);
      assert init + [last] == entries;
      InsertLast(init, last);
    }
  }

  lemma AscendingDistinct(entries: seq<Entry>)
    requires AscendingKeys(entries)
    ensures DistinctKeys(entries)
  {
    forall i, j | 0 <= i < j < |entries|
      ensures entries[i].key != entries[j].key
    {
      LessTotal(entries[i].key, entries[j].key);
    }
  }

  // ----- normalising a raw tree -----

  /** A map-based value has nothing to normalise. */
  lemma {:induction false} NormalOfAscending(v: Value)
    requires Ascending(v)
    ensures Distinct(v) && Normal(v) == v
    decreases v, 1
  {
    if v.Array? {
      NormalOfAscendingItems(v.items);
    } else if v.Object? {
      NormalOfAscendingEntries(v.entries);
      AscendingDistinct(v.entries);
      CollectKeeps(v.entries);
    }
  }

  lemma {:induction false} NormalOfAscendingItems(items: seq<Value>)
    requires AscendingItems(items)
    ensures DistinctItems(items) && NormalItems(items) == items
    decreases items, 0
  {
    if items != [] {
      NormalOfAscending(items[0]);
      NormalOfAscendingItems(items[1..]);
    }
  }

  lemma {:induction false} NormalOfAscendingEntries(entries: seq<Entry>)
    requires AscendingEntries(entries)
    ensures DistinctEntries(entries) && NormalEntries(entries) == entries
    decreases entries, 0
  {
    if entries != [] {
      NormalOfAscending(entries[0].value);
      NormalOfAscendingEntries(entries[1..]);
    }
  }

  /** Normalising yields a map-based value of the same size and cost. */
  lemma {:induction false} NormalCost(v: Value, room: int)
    requires Distinct(v)
    ensures var w := Normal(v);
      && Ascending(w) && |Form(w)| == |Form(v)| && Nodes(w) == Nodes(v)
      && Finite(w) == Finite(v) && Shallow(w, room) == Shallow(v, room)
    decreases v, 1
  {
    if v.Array? {
      NormalItemsCost(v.items, room - 1);
    } else if v.Object? {
      NormalEntriesCost(v.entries, room - 1);
      var entries := NormalEntries(v.entries);
      CostCollect(entries, room - 1);
      CollectAscending(entries);
    }
  }

  lemma {:induction false} NormalItemsCost(items: seq<Value>, room: int)
    requires DistinctItems(items)
    ensures var r := NormalItems(items);
      && AscendingItems(r) && |FormOfItems(r)| == |FormOfItems(items)| && NodesOfItems(r) == NodesOfItems(items)
      && FiniteItems(r) == FiniteItems(items) && ShallowItems(r, room) == ShallowItems(items, room)
    decreases items, 0
  {
    if items != [] {
      NormalCost(items[0], room);
      NormalItemsCost(items[1..], room);
      assert NormalItems(items)[1..] == NormalItems(items[1..]);
    }
  }

  lemma {:induction false} NormalEntriesCost(entries: seq<Entry>, room: int)
    requires DistinctEntries(entries)
    ensures AscendingEntries(NormalEntries(entries))
    ensures CostOf(NormalEntries(entries), room) == CostOf(entries, room)
    decreases entries, 0
  {
    if entries != [] {
      var e := entries[0];
      NormalCost(e.value, room);
      NormalEntriesCost(entries[1..], room);
      CostCons(e, entries[1..], room);
      CostCons(Entry(e.key, Normal(e.value)), NormalEntries(entries[1..]), room);
      assert entries == [e] + entries[1..];
    }
  }

  // ----- the laws of the codec -----

  /** What was encoded within the limits is decoded, under the same limits, to the same value. */
  lemma RoundTrip(v: Value, limits: Limits)
    requires Ascending(v) && Encodable(v, limits)
    ensures Decode(Form(v), limits) == Good(v, [], Nodes(v))
  {
    assert Form(v) + [] == Form(v);
    ParseForm(v, [], 0, 0, limits);
    NormalOfAscending(v);
  }

  /** Exactly these inputs are accepted: the forms of trees within the limits without a repeated key. */
  lemma DecodeAccepts(input: seq<byte>, limits: Limits)
    ensures Decode(input, limits).Good? <==>
            exists raw :: Encodable(raw, limits) && Distinct(raw) && Form(raw) == input
  {
    if Decode(input, limits).Good? {
      ParseSound(input, 0, 0, limits);
      var raw := Parse(input, 0, 0, limits).value;
      assert Form(raw) + [] == Form(raw);
      assert Encodable(raw, limits) && Distinct(raw) && Form(raw) == input;
    }
    if raw :| Encodable(raw, limits) && Distinct(raw) && Form(raw) == input {
      assert Form(raw) + [] == Form(raw);
      ParseForm(raw, [], 0, 0, limits);
    }
  }

  lemma FormInjective(v: Value, w: Value, limits: Limits)
    requires Encodable(v, limits) && Encodable(w, limits) && Form(v) == Form(w)
    ensures v == w
  {
    hide Parse, Form;
    ParseForm(v, [], 0, 0, limits);
    ParseForm(w, [], 0, 0, limits);
  }

  /** Decoding never loses or adds bytes: re-encoding succeeds under the same limits with the same length,
      and reproduces the input exactly when every object in the input has ascending keys. */
  lemma DecodeThenEncode(input: seq<byte>, limits: Limits)
    requires Decode(input, limits).Good?
    ensures var raw, v := Parse(input, 0, 0, limits).value, Decode(input, limits).value;
      && Ascending(v) && Encodable(v, limits) && |Form(v)| == |input|
      && (Form(v) == input <==> Ascending(raw))
  {
    hide Parse, Form, Nodes, Finite, Shallow, Normal, Ascending, Distinct;
    var raw := Parse(input, 0, 0, limits).value;
    ParseSound(input, 0, 0, limits);
    assert Form(raw) + [] == Form(raw);
    NormalCost(raw, limits.maxDepth);
    if Ascending(raw) {
      NormalOfAscending(raw);
    } else if Form(Normal(raw)) == input {
      FormInjective(Normal(raw), raw, limits);
    }
  }

  lemma {:induction false} ParseIgnoresTail(input: seq<byte>, tail: seq<byte>, limits: Limits)
    requires |input| + |tail| < TWO_64
    requires Parse(input, 0, 0, limits).Good?
    ensures var p := Parse(input, 0, 0, limits);
      Parse(input + tail, 0, 0, limits) == Good(p.value, p.rest + tail, p.nodes)
  {
    var p := Parse(input, 0, 0, limits);
    ParseSound(input, 0, 0, limits);
    assert input + tail == Form(p.value) + (p.rest + tail);
    ParseForm(p.value, p.rest + tail, 0, 0, limits);
  }

  /** No accepted encoding is a proper prefix of another: truncation is always noticed. */
  lemma PrefixFree(whole: seq<byte>, cut: nat, limits: Limits)
    requires Decode(whole, limits).Good? && cut < |whole|
    ensures Decode(whole[..cut], limits).Bad?
  {
    if Decode(whole[..cut], limits).Good? {
      assert whole[..cut] + whole[cut..] == whole;
      ParseIgnoresTail(whole[..cut], whole[cut..], limits);
    }
  }
}