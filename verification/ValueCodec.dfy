/**
 The encoder and decoder objects behind `encodeValue` and `decodeValue`. A thrown
 `invalid_argument` is `ok == false`; the object is abandoned afterwards, so nothing is
 promised about its fields then.
 */
module ValueCodec {
  import opened Bytes
  import opened Values

  lemma LowByteFirst(before: seq<byte>, width: nat, value: nat)
    ensures width > 0 ==>
      before + LittleEndian(width, value) == before + [(value % 256) as byte] + LittleEndian(width - 1, value / 256)
    ensures before + LittleEndian(0, value) == before
  {
  }

  class Encoder {
    var result: seq<byte>
    var nodes: nat
    const limits: Limits

    constructor (limits: Limits)
      ensures result == [] && nodes == 0 && this.limits == limits
    {
      result, nodes := [], 0;
      this.limits := limits;
    }

    method Byte(value: byte) returns (ok: bool)
      modifies this
      ensures nodes == old(nodes)
      ensures ok <==> |old(result)| < limits.maxBytes
      ensures ok ==> result == old(result) + [value]
    {
      ok := |result| < limits.maxBytes;
      if ok {
        result := result + [value];
      }
    }

    /** Eight bytes, low byte first. */
    method Integer(value: nat) returns (ok: bool)
      modifies this
      ensures nodes == old(nodes)
      ensures ok <==> |old(result)| + 8 <= limits.maxBytes
      ensures ok ==> result == old(result) + LittleEndian(8, value)
    {
      hide LittleEndian;
      var left := value;
      ok := true;
      var i := 0;
      while i < 8
        invariant 0 <= i <= 8 && nodes == old(nodes) && ok
        invariant |result| == |old(result)| + i
        invariant i > 0 ==> |result| <= limits.maxBytes
        invariant result + LittleEndian(8 - i, left) == old(result) + LittleEndian(8, value)
      {
        ghost var before := result;
        ok := Byte((left % 256) as byte);
        if !ok {
          return;
        }
        LowByteFirst(before, 8 - i, left);
        left := left / 256;
        i := i + 1;
      }
      LowByteFirst(result, 0, left);
    }

    /** A length and the bytes themselves. */
    method Bytes(value: seq<byte>) returns (ok: bool)
      modifies this
      ensures nodes == old(nodes)
      ensures ok <==> |old(result)| + 8 + |value| <= limits.maxBytes
      ensures ok ==> result == old(result) + Sized(value)
    {
      ok := Integer(|value|);
      if !ok || |value| > limits.maxBytes - |result| {
        return false;
      }
      result := result + value;
    }

    /** The body of a scalar, after its tag. */
    method Scalar(input: Value) returns (ok: bool)
      requires IsScalar(input) && |result| <= limits.maxBytes
      modifies this
      ensures nodes == old(nodes)
      ensures ok <==> Finite(input) && |old(result)| + |ScalarBody(input)| <= limits.maxBytes
      ensures ok ==> result == old(result) + ScalarBody(input)
    {
      match input
      case Null => ok := true;
      case Int(number) => ok := Integer(ToUnsigned(number));
      case Double(bits) =>
        if !FiniteBits(bits) {
          return false;
        }
        ok := Integer(bits);
      case Bool(truth) => ok := Byte(if truth then 1 else 0);
      case Text(text) => ok := Bytes(text);
      case Blob(bytes) => ok := Bytes(bytes);
    }

    /** Succeeds exactly within the limits, and then appends exactly the form of the value. */
    method Encode(input: Value, depth: nat) returns (ok: bool)
      requires |result| <= limits.maxBytes && nodes <= limits.maxNodes
      modifies this
      ensures ok <==>
        && Finite(input) && Shallow(input, limits.maxDepth - depth)
        && old(nodes) + Nodes(input) <= limits.maxNodes
        && |old(result)| + |Form(input)| <= limits.maxBytes
      ensures ok ==> result == old(result) + Form(input) && nodes == old(nodes) + Nodes(input)
      decreases input, 2
    {
      hide FormBody, Nodes, Finite, TagOf;
      if nodes >= limits.maxNodes {
        return false;
      }
      nodes := nodes + 1;
      if depth > limits.maxDepth {
        return false;
      }
      ok := Byte(TagOf(input));
      if !ok {
        return;
      }
      ok := Body(input, depth);
    }

    /** What follows the tag. */
    method Body(input: Value, depth: nat) returns (ok: bool)
      requires |result| <= limits.maxBytes && 0 < nodes <= limits.maxNodes && depth <= limits.maxDepth
      modifies this
      ensures ok <==>
        && Finite(input) && Shallow(input, limits.maxDepth - depth)
        && old(nodes) + Nodes(input) - 1 <= limits.maxNodes
        && |old(result)| + |FormBody(input)| <= limits.maxBytes
      ensures ok ==> result == old(result) + FormBody(input) && nodes == old(nodes) + Nodes(input) - 1
      decreases input, 1
    {
      hide LittleEndian, FormOfItems, FormOfEntries, NodesOfItems, NodesOfEntries, ScalarBody, FiniteBits;
      if input.Array? {
        ok := Integer(|input.items|);
        if ok {
          ok := Items(input.items, depth + 1);
        }
      } else if input.Object? {
        ok := Integer(|input.entries|);
        if ok {
          ok := Entries(input.entries, depth + 1);
        }
      } else {
        ok := Scalar(input);
      }
    }

    /** The loop over the elements of an array. */
    method Items(items: seq<Value>, depth: nat) returns (ok: bool)
      requires |result| <= limits.maxBytes && nodes <= limits.maxNodes
      modifies this
      ensures ok <==>
        && FiniteItems(items) && ShallowItems(items, limits.maxDepth - depth)
        && old(nodes) + NodesOfItems(items) <= limits.maxNodes
        && |old(result)| + |FormOfItems(items)| <= limits.maxBytes
      ensures ok ==> result == old(result) + FormOfItems(items) && nodes == old(nodes) + NodesOfItems(items)
      decreases items, 0
    {
      hide LittleEndian, Form, Nodes, Finite, Shallow;
      var i := 0;
      ok := true;
      while i < |items|
        invariant 0 <= i <= |items| && ok
        invariant |result| <= limits.maxBytes && nodes <= limits.maxNodes
        invariant FiniteItems(items) == FiniteItems(items[i..])
        invariant ShallowItems(items, limits.maxDepth - depth) == ShallowItems(items[i..], limits.maxDepth - depth)
        invariant nodes + NodesOfItems(items[i..]) == old(nodes) + NodesOfItems(items)
        invariant result + FormOfItems(items[i..]) == old(result) + FormOfItems(items)
      {
        var before := result;
        assert items[i..][0] == items[i] && items[i..][1..] == items[i + 1..];
        ok := Encode(items[i], depth);
        if !ok {
          assert |before + FormOfItems(items[i..])| == |old(result) + FormOfItems(items)|;
          return;
        }
        i := i + 1;
      }
    }

    /** The loop over the entries of an object, in key order. */
    method Entries(entries: seq<Entry>, depth: nat) returns (ok: bool)
      requires |result| <= limits.maxBytes && nodes <= limits.maxNodes
      modifies this
      ensures ok <==>
        && FiniteEntries(entries) && ShallowEntries(entries, limits.maxDepth - depth)
        && old(nodes) + NodesOfEntries(entries) <= limits.maxNodes
        && |old(result)| + |FormOfEntries(entries)| <= limits.maxBytes
      ensures ok ==> result == old(result) + FormOfEntries(entries) && nodes == old(nodes) + NodesOfEntries(entries)
      decreases entries, 0
    {
      hide LittleEndian, Form, Nodes, Finite, Shallow, Sized;
      var i := 0;
      ok := true;
      while i < |entries|
        invariant 0 <= i <= |entries| && ok
        invariant |result| <= limits.maxBytes && nodes <= limits.maxNodes
        invariant FiniteEntries(entries) == FiniteEntries(entries[i..])
        invariant ShallowEntries(entries, limits.maxDepth - depth) == ShallowEntries(entries[i..], limits.maxDepth - depth)
        invariant nodes + NodesOfEntries(entries[i..]) == old(nodes) + NodesOfEntries(entries)
        invariant result + FormOfEntries(entries[i..]) == old(result) + FormOfEntries(entries)
      {
        ghost var before := result;
        assert entries[i..][0] == entries[i] && entries[i..][1..] == entries[i + 1..];
        assert |before + FormOfEntries(entries[i..])| == |old(result) + FormOfEntries(entries)|;
        EntryFormSplits(entries[i..], []);
        ok := Bytes(entries[i].key);
        if !ok {
          return;
        }
        ok := Encode(entries[i].value, depth);
        if !ok {
          return;
        }
        assert FormOfEntries(entries[i..]) + [] == FormOfEntries(entries[i..]);
        assert FormOfEntries(entries[i + 1..]) + [] == FormOfEntries(entries[i + 1..]);
        assert result + FormOfEntries(entries[i + 1..]) == before + FormOfEntries(entries[i..]);
        i := i + 1;
      }
    }
  }

  // How the specification functions follow the loops of the decoder, one element at a time.

  lemma {:induction false} DistinctItemsAppend(a: seq<Value>, b: seq<Value>)
    ensures DistinctItems(a + b) <==> DistinctItems(a) && DistinctItems(b)
    ensures NormalItems(a + b) == NormalItems(a) + NormalItems(b)
  {
    if a == [] {
      assert a + b == b;
    } else {
      assert (a + b)[1..] == a[1..] + b;
      DistinctItemsAppend(a[1..], b);
    }
  }

  lemma {:induction false} DistinctEntriesAppend(a: seq<Entry>, b: seq<Entry>)
    ensures DistinctEntries(a + b) <==> DistinctEntries(a) && DistinctEntries(b)
    ensures NormalEntries(a + b) == NormalEntries(a) + NormalEntries(b)
  {
    if a == [] {
      assert a + b == b;
    } else {
      assert (a + b)[1..] == a[1..] + b;
      DistinctEntriesAppend(a[1..], b);
    }
  }

  lemma NormalEntriesSnoc(raw: seq<Entry>, e: Entry)
    ensures DistinctEntries(raw + [e]) <==> DistinctEntries(raw) && Distinct(e.value)
    ensures NormalEntries(raw + [e]) == NormalEntries(raw) + [Entry(e.key, Normal(e.value))]
  {
    DistinctEntriesAppend(raw, [e]);
    assert NormalEntries([e]) == [Entry(e.key, Normal(e.value))];
  }

  /** The map held after reading `raw` refuses a key exactly when `raw` already has it. */
  lemma CollectedHas(raw: seq<Entry>, key: seq<byte>)
    ensures Has(Collect(NormalEntries(raw)), key) <==> Has(raw, key)
  {
    CollectHas(NormalEntries(raw), key);
    assert forall i :: 0 <= i < |raw| ==> NormalEntries(raw)[i].key == raw[i].key;
  }

  lemma DistinctSnoc(raw: seq<Entry>, e: Entry)
    requires DistinctKeys(raw)
    ensures DistinctKeys(raw + [e]) <==> !Has(raw, e.key)
  {
    assert forall i :: 0 <= i < |raw| ==> (raw + [e])[i] == raw[i];
    assert (raw + [e])[|raw|] == e;
  }

  /** A parsed list with elements read earlier put in front. */
  ghost function Prepend<T>(raw: seq<T>, p: Parsed<seq<T>>): Parsed<seq<T>> {
    if p.Bad? then Bad else Good(raw + p.value, p.rest, p.nodes)
  }

  lemma PrependNothing<T>(p: Parsed<seq<T>>)
    ensures Prepend([], p) == p
  {
    if p.Good? {
      assert [] + p.value == p.value;
    }
  }

  lemma PrependTwice<T>(raw: seq<T>, x: T, p: Parsed<seq<T>>)
    ensures Prepend(raw, Prepend([x], p)) == Prepend(raw + [x], p)
  {
    if p.Good? {
      assert raw + ([x] + p.value) == raw + [x] + p.value;
    }
  }

  lemma EmptyCollect()
    ensures Collect([]) == []
  {
  }

  lemma CollectSnoc(entries: seq<Entry>, e: Entry)
    ensures Collect(entries + [e]) == Insert(Collect(entries), e)
  {
    assert (entries + [e])[..|entries|] == entries;
  }

  lemma RepeatedStays(raw: seq<Entry>, more: seq<Entry>)
    requires !DistinctKeys(raw)
    ensures !DistinctKeys(raw + more)
  {
    var i, j :| 0 <= i < j < |raw| && raw[i].key == raw[j].key;
    assert (raw + more)[i].key == (raw + more)[j].key;
  }

  class Decoder {
    var remaining: seq<byte>
    var nodes: nat
    const limits: Limits

    constructor (input: seq<byte>, limits: Limits)
      ensures remaining == input && nodes == 0 && this.limits == limits
    {
      remaining, nodes := input, 0;
      this.limits := limits;
    }

    method Byte() returns (ok: bool, value: byte)
      modifies this
      ensures nodes == old(nodes)
      ensures ok <==> old(remaining) != []
      ensures ok ==> [value] + remaining == old(remaining)
    {
      ok, value := remaining != [], 0;
      if ok {
        value, remaining := remaining[0], remaining[1..];
      }
    }

    method Integer() returns (ok: bool, value: u64)
      modifies this
      ensures nodes == old(nodes)
      ensures ok == TakeWord(old(remaining)).Good?
      ensures ok ==> TakeWord(old(remaining)) == Good(value, remaining, 0)
    {
      var taken, i := [], 0;
      value := 0;
      while i < 8
        invariant 0 <= i <= 8 && nodes == old(nodes)
        invariant |taken| == i && taken + remaining == old(remaining)
      {
        var got, b := Byte();
        if !got {
          return false, 0;
        }
        taken := taken + [b];
        i := i + 1;
      }
      assert old(remaining)[..8] == taken && old(remaining)[8..] == remaining;
      Word64(0, taken);
      var number := Get(taken);
      ok, value := true, number;
    }

    /** A length is checked against the remaining input before anything is allocated. */
    method Count() returns (ok: bool, value: nat)
      modifies this
      ensures nodes == old(nodes)
      ensures ok == TakeCount(old(remaining)).Good?
      ensures ok ==> TakeCount(old(remaining)) == Good(value, remaining, 0)
    {
      ok, value := Integer();
      if ok && value > |remaining| {
        ok := false;
      }
    }

    method Bytes() returns (ok: bool, value: seq<byte>)
      modifies this
      ensures nodes == old(nodes)
      ensures ok == TakeSized(old(remaining), nodes).Good?
      ensures ok ==> TakeSized(old(remaining), nodes) == Good(value, remaining, nodes)
    {
      var size: nat;
      ok, size := Count();
      if !ok {
        return false, [];
      }
      assert old(remaining)[8..8 + size] == remaining[..size] && old(remaining)[8 + size..] == remaining[size..];
      value, remaining := remaining[..size], remaining[size..];
    }

    /** Succeeds exactly when the input parses without a repeated key; the value is then the normal form. */
    method Decode(depth: nat) returns (ok: bool, value: Value)
      modifies this
      ensures var p := Parse(old(remaining), depth, old(nodes), limits);
        && ok == (p.Good? && Distinct(p.value))
        && (ok ==> value == Normal(p.value) && remaining == p.rest && nodes == p.nodes)
      decreases |remaining|, 1
    {
      value := Null;
      if nodes >= limits.maxNodes {
        return false, Null;
      }
      nodes := nodes + 1;
      if depth > limits.maxDepth {
        return false, Null;
      }
      var tag: byte;
      ok, tag := Byte();
      if !ok {
        return;
      }
      if tag == 6 {
        var size: nat;
        ok, size := Count();
        if ok {
          var items;
          ok, items := Items(size, depth + 1);
          value := Array(items);
        }
      } else if tag == 7 {
        var size: nat;
        ok, size := Count();
        if ok {
          var entries;
          ok, entries := Entries(size, depth + 1);
          value := Object(entries);
        }
      } else {
        ok, value := Scalar(tag);
      }
    }

    method Scalar(tag: byte) returns (ok: bool, value: Value)
      requires tag != 6 && tag != 7
      modifies this
      ensures nodes == old(nodes)
      ensures ok == ParseScalar(tag, old(remaining), nodes).Good?
      ensures ok ==> ParseScalar(tag, old(remaining), nodes) == Good(value, remaining, nodes)
    {
      ok, value := false, Null;
      if tag == 0 {
        ok := true;
      } else if tag == 1 {
        var word;
        ok, word := Integer();
        value := Int(ToSigned(word));
      } else if tag == 2 {
        var word;
        ok, word := Integer();
        ok, value := ok && FiniteBits(word), Double(word);
      } else if tag == 3 {
        var truth;
        ok, truth := Byte();
        ok, value := ok && truth <= 1, Bool(truth != 0);
      } else if tag == 4 {
        var text;
        ok, text := Bytes();
        value := Text(text);
      } else if tag == 5 {
        var bytes;
        ok, bytes := Bytes();
        value := Blob(bytes);
      }
    }

    method Items(size: nat, depth: nat) returns (ok: bool, values: seq<Value>)
      modifies this
      ensures var p := ParseItems(old(remaining), size, depth, old(nodes), limits);
        && ok == (p.Good? && DistinctItems(p.value))
        && (ok ==> values == NormalItems(p.value) && remaining == p.rest && nodes == p.nodes)
      decreases |remaining|, 2, size
    {
      ghost var raw: seq<Value> := [];
      ghost var whole := ParseItems(remaining, size, depth, nodes, limits);
      PrependNothing(whole);
      hide Parse, Normal, Distinct;
      values := [];
      var i := 0;
      while i < size
        invariant 0 <= i <= size && |remaining| <= |old(remaining)|
        invariant DistinctItems(raw) && values == NormalItems(raw)
        invariant whole == Prepend(raw, ParseItems(remaining, size - i, depth, nodes, limits))
      {
        ghost var head := Parse(remaining, depth, nodes, limits);
        ghost var here := ParseItems(remaining, size - i, depth, nodes, limits);
        var value;
        ok, value := Decode(depth);
        if !ok {
          if here.Good? {
            DistinctItemsAppend(raw, here.value);
          }
          return;
        }
        values := values + [value];
        DistinctItemsAppend(raw, [head.value]);
        ghost var tail := ParseItems(remaining, size - i - 1, depth, nodes, limits);
        PrependTwice(raw, head.value, tail);
        raw := raw + [head.value];
        i := i + 1;
      }
      assert raw + [] == raw;
      ok := true;
    }

    method Entries(size: nat, depth: nat) returns (ok: bool, values: seq<Entry>)
      modifies this
      ensures var p := ParseEntries(old(remaining), size, depth, old(nodes), limits);
        && ok == (p.Good? && DistinctEntries(p.value) && DistinctKeys(p.value))
        && (ok ==> values == Collect(NormalEntries(p.value)) && remaining == p.rest && nodes == p.nodes)
      decreases |remaining|, 2, size
    {
      ghost var raw: seq<Entry> := [];
      ghost var whole := ParseEntries(remaining, size, depth, nodes, limits);
      PrependNothing(whole);
      hide Parse, Normal, Distinct, Collect, Insert, Has, TakeSized;
      assert Collect([]) == [] by { EmptyCollect(); }
      values := [];
      var i := 0;
      while i < size
        invariant 0 <= i <= size && |remaining| <= |old(remaining)|
        invariant DistinctEntries(raw) && DistinctKeys(raw) && values == Collect(NormalEntries(raw))
        invariant whole == Prepend(raw, ParseEntries(remaining, size - i, depth, nodes, limits))
      {
        ghost var here := ParseEntries(remaining, size - i, depth, nodes, limits);
        var key, value;
        ok, key := Bytes();
        if !ok {
          return;
        }
        ghost var head := Parse(remaining, depth, nodes, limits);
        ok, value := Decode(depth);
        if !ok {
          if here.Good? {
            DistinctEntriesAppend(raw, here.value);
          }
          return;
        }
        ghost var e := Entry(key, head.value);
        ghost var tail := ParseEntries(remaining, size - i - 1, depth, nodes, limits);
        PrependTwice(raw, e, tail);
        CollectedHas(raw, key);
        DistinctSnoc(raw, e);
        if Has(values, key) {
          if tail.Good? {
            RepeatedStays(raw + [e], tail.value);
          }
          return false, values;
        }
        values := Insert(values, Entry(key, value));
        NormalEntriesSnoc(raw, e);
        CollectSnoc(NormalEntries(raw), Entry(key, value));
        raw := raw + [e];
        i := i + 1;
      }
      assert raw + [] == raw;
      ok := true;
    }
  }

  method EncodeValue(value: Value, limits: Limits) returns (ok: bool, bytes: seq<byte>)
    ensures ok <==> Encodable(value, limits)
    ensures ok ==> bytes == Form(value)
  {
    var encoder := new Encoder(limits);
    ok := encoder.Encode(value, 0);
    bytes := encoder.result;
  }

  method DecodeValue(bytes: seq<byte>, limits: Limits) returns (ok: bool, value: Value)
    ensures ok == Decode(bytes, limits).Good?
    ensures ok ==> value == Decode(bytes, limits).value
  {
    if |bytes| > limits.maxBytes {
      return false, Null;
    }
    var decoder := new Decoder(bytes, limits);
    ok, value := decoder.Decode(0);
    ok := ok && decoder.remaining == [];
  }
}
