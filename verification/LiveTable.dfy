/** The live table: the newest records that fit its limits on rows and memory, and sorted pages of them. */
module LiveTable {
  import opened Basics
  import opened Bytes
  import opened Values
  import opened Records
  import opened TableQuery

  datatype Row = Row(id: nat, record: Record)

  datatype Entry = Entry(row: Row, bytes: nat)

  // ---------------------------------------------------------------- retention

  function TotalBytes(entries: seq<Entry>): nat {
    if entries == [] then 0 else entries[0].bytes + TotalBytes(entries[1..])
  }

  predicate FitsLimits(entries: seq<Entry>, maxRows: nat, maxBytes: nat) {
    |entries| <= maxRows && TotalBytes(entries) <= maxBytes
  }

  /** The last `n` entries. */
  function Last(entries: seq<Entry>, n: nat): seq<Entry>
    requires n <= |entries|
  {
    entries[|entries| - n..]
  }

  /** `kept` is the longest end of the entries within the limits. */
  ghost predicate LongestEnd(kept: seq<Entry>, entries: seq<Entry>, maxRows: nat, maxBytes: nat) {
    && |kept| <= |entries| && kept == Last(entries, |kept|)
    && FitsLimits(kept, maxRows, maxBytes)
    && forall n :: |kept| < n <= |entries| ==> !FitsLimits(Last(entries, n), maxRows, maxBytes)
  }

  lemma {:induction false} TotalSnoc(entries: seq<Entry>, e: Entry)
    ensures TotalBytes(entries + [e]) == TotalBytes(entries) + e.bytes
  {
    if entries == [] {
      assert [e][1..] == [] && entries + [e] == [e];
    } else {
      assert (entries + [e])[1..] == entries[1..] + [e];
      TotalSnoc(entries[1..], e);
    }
  }

  lemma {:induction false} TotalDrops(entries: seq<Entry>, k: nat)
    requires k <= |entries|
    ensures TotalBytes(entries[k..]) <= TotalBytes(entries)
  {
    if k > 0 {
      TotalDrops(entries[1..], k - 1);
      assert entries[1..][k - 1..] == entries[k..];
    } else {
      assert entries[0..] == entries;
    }
  }

  /** Before a new entry is added, its room is made by dropping entries from the front; what is then kept is
    * again the longest end. */
  lemma EndGrows(kept: seq<Entry>, entries: seq<Entry>, e: Entry, k: nat, maxRows: nat, maxBytes: nat)
    requires LongestEnd(kept, entries, maxRows, maxBytes) && k <= |kept|
    requires FitsLimits(kept[k..] + [e], maxRows, maxBytes)
    requires k > 0 ==> !FitsLimits(kept[k - 1..] + [e], maxRows, maxBytes)
    ensures LongestEnd(kept[k..] + [e], entries + [e], maxRows, maxBytes)
  {
    var all, left := entries + [e], kept[k..] + [e];
    assert left == Last(all, |left|);
    forall n | |left| < n <= |all| ensures !FitsLimits(Last(all, n), maxRows, maxBytes) {
      var part := Last(entries, n - 1);
      assert Last(all, n) == part + [e];
      TotalSnoc(part, e);
      if n - 1 <= |kept| {
        var more := kept[k - 1..];
        assert more == part[|part| - |more|..];
        TotalDrops(part, |part| - |more|);
        TotalSnoc(more, e);
      } else {
        assert !FitsLimits(part, maxRows, maxBytes);
      }
    }
  }

  // ---------------------------------------------------------------- the order of a page

  datatype FieldSort = FieldSort(field: seq<byte>, descending: bool)

  datatype View = View(
    device: Option<seq<byte>>, fromUs: Option<i64>, toUs: Option<i64>, conditions: seq<Condition>,
    sort: Option<FieldSort>, offset: nat, limit: nat)

  predicate ValidView(view: View) {
    && ValidConditions(view.conditions)
    && 1 <= view.limit <= 1000 && view.offset < TWO_63
    && (view.fromUs.Some? && view.toUs.Some? ==> view.fromUs.value <= view.toUs.value)
    && (view.device.Some? ==> |view.device.value| <= 4096)
    && (view.sort.Some? ==>
         view.sort.value.field != [] && |view.sort.value.field| <= 4096 && 0 !in view.sort.value.field)
  }

  /** The order of two values of the sort field; a record without the field comes first. */
  function SortOrder(a: Option<Value>, b: Option<Value>): int
    requires (a.Some? ==> IsScalar(a.value)) && (b.Some? ==> IsScalar(b.value))
  {
    if a.None? then (if b.Some? then -1 else 0)
    else if b.None? then 1
    else CompareValues(a.value, b.value)
  }

  predicate OrderedRow(row: Row) {
    OrderedValues(row.record.values)
  }

  function SortValue(schema: Schema, sort: FieldSort, row: Row): (v: Option<Value>)
    requires OrderedRow(row)
    ensures v.Some? ==> Ordered(v.value)
  {
    FieldOrdered(schema.fields, row.record.values, sort.field);
    TableQuery.FieldValue(schema.fields, row.record.values, sort.field)
  }

  /** Whether row `a` stands before row `b`. */
  predicate Before(schema: Schema, sort: Option<FieldSort>, a: Row, b: Row)
    requires OrderedRow(a) && OrderedRow(b)
  {
    var order := if sort.None? then 0
      else SortOrder(SortValue(schema, sort.value, a), SortValue(schema, sort.value, b));
    if order != 0 then (if sort.value.descending then order > 0 else order < 0)
    else if a.record.receivedAtUs != b.record.receivedAtUs then a.record.receivedAtUs < b.record.receivedAtUs
    else a.id < b.id
  }

  lemma SortOrders(a: Option<Value>, b: Option<Value>, c: Option<Value>)
    requires (a.Some? ==> Ordered(a.value)) && (b.Some? ==> Ordered(b.value)) && (c.Some? ==> Ordered(c.value))
    ensures SortOrder(a, a) == 0 && SortOrder(b, a) == -SortOrder(a, b)
    ensures SortOrder(a, b) <= 0 && SortOrder(b, c) <= 0 ==>
      SortOrder(a, c) <= 0 && (SortOrder(a, c) == 0 ==> SortOrder(a, b) == 0 && SortOrder(b, c) == 0)
  {
    hide CompareValues;
    if a.Some? {
      ComparisonOrders(a.value, if b.Some? then b.value else a.value, if c.Some? then c.value else a.value);
    }
    if a.Some? && b.Some? {
      ComparisonOrders(a.value, b.value, a.value);
    }
  }

  /** The order of rows is strict and total on rows with different ids. */
  lemma BeforeOrders(schema: Schema, sort: Option<FieldSort>, a: Row, b: Row, c: Row)
    requires OrderedRow(a) && OrderedRow(b) && OrderedRow(c)
    ensures !Before(schema, sort, a, a)
    ensures a.id != b.id ==> (Before(schema, sort, a, b) <==> !Before(schema, sort, b, a))
    ensures Before(schema, sort, a, b) && Before(schema, sort, b, c) ==> Before(schema, sort, a, c)
  {
    hide SortOrder, SortValue;
    if sort.Some? {
      var x, y, z := SortValue(schema, sort.value, a), SortValue(schema, sort.value, b), SortValue(schema, sort.value, c);
      SortsOrdered(schema, sort.value, a);
      SortsOrdered(schema, sort.value, b);
      SortsOrdered(schema, sort.value, c);
      SortOrders(x, y, z);
      SortOrders(y, z, x);
      SortOrders(z, x, y);
      SortOrders(z, y, x);
      SortOrders(y, x, z);
      SortOrders(x, z, y);
    }
  }

  lemma SortsOrdered(schema: Schema, sort: FieldSort, row: Row)
    requires OrderedRow(row)
    ensures SortValue(schema, sort, row).Some? ==> Ordered(SortValue(schema, sort, row).value)
  {
  }

  predicate AllOrdered(rows: seq<Row>) {
    forall i :: 0 <= i < |rows| ==> OrderedRow(rows[i])
  }

  predicate InOrder(schema: Schema, sort: Option<FieldSort>, rows: seq<Row>)
    requires AllOrdered(rows)
  {
    forall i, j :: 0 <= i < j < |rows| ==> Before(schema, sort, rows[i], rows[j])
  }

  function Placed(schema: Schema, sort: Option<FieldSort>, rows: seq<Row>, r: Row): (p: seq<Row>)
    requires AllOrdered(rows) && OrderedRow(r)
    ensures AllOrdered(p) && multiset(p) == multiset(rows) + multiset{r}
  {
    if rows == [] || Before(schema, sort, r, rows[0]) then
      assert [r] + rows == [r] + rows;
      [r] + rows
    else
      assert rows == [rows[0]] + rows[1..];
      [rows[0]] + Placed(schema, sort, rows[1..], r)
  }

  /** The sorted rows. */
  function Arranged(schema: Schema, sort: Option<FieldSort>, rows: seq<Row>): (p: seq<Row>)
    requires AllOrdered(rows)
    ensures AllOrdered(p) && multiset(p) == multiset(rows)
  {
    if rows == [] then []
    else
      assert rows == [rows[0]] + rows[1..];
      Placed(schema, sort, Arranged(schema, sort, rows[1..]), rows[0])
  }

  predicate DistinctIds(rows: seq<Row>) {
    forall i, j :: 0 <= i < j < |rows| ==> rows[i].id != rows[j].id
  }

  lemma {:induction false} PlacedInOrder(schema: Schema, sort: Option<FieldSort>, rows: seq<Row>, r: Row)
    requires AllOrdered(rows) && OrderedRow(r) && InOrder(schema, sort, rows)
    requires forall i :: 0 <= i < |rows| ==> rows[i].id != r.id
    ensures InOrder(schema, sort, Placed(schema, sort, rows, r))
  {
    hide Before;
    if rows == [] {
    } else if Before(schema, sort, r, rows[0]) {
      forall i | 0 < i < |rows| ensures Before(schema, sort, r, rows[i]) {
        BeforeOrders(schema, sort, r, rows[0], rows[i]);
      }
    } else {
      var head, tail := rows[0], rows[1..];
      PlacedInOrder(schema, sort, tail, r);
      BeforeOrders(schema, sort, r, head, head);
      var p := Placed(schema, sort, tail, r);
      forall i | 0 <= i < |p| ensures Before(schema, sort, head, p[i]) {
        assert p[i] in multiset(p);
        if p[i] != r {
          assert p[i] in tail;
        }
      }
    }
  }

  lemma {:induction false} ArrangedInOrder(schema: Schema, sort: Option<FieldSort>, rows: seq<Row>)
    requires AllOrdered(rows) && DistinctIds(rows)
    ensures InOrder(schema, sort, Arranged(schema, sort, rows))
  {
    hide Before;
    if rows != [] {
      ArrangedInOrder(schema, sort, rows[1..]);
      var rest := Arranged(schema, sort, rows[1..]);
      forall i | 0 <= i < |rest| ensures rest[i].id != rows[0].id {
        assert rest[i] in multiset(rest);
        assert rest[i] in rows[1..];
      }
      PlacedInOrder(schema, sort, rest, rows[0]);
    }
  }

  /** There is only one order of a set of rows: any sorting routine gives the same. */
  lemma {:induction false} OrderUnique(schema: Schema, sort: Option<FieldSort>, a: seq<Row>, b: seq<Row>)
    requires AllOrdered(a) && AllOrdered(b)
    requires InOrder(schema, sort, a) && InOrder(schema, sort, b) && multiset(a) == multiset(b)
    ensures a == b
  {
    hide Before, OrderedRow;
    if a == [] {
      assert |multiset(b)| == 0;
    } else {
      assert |multiset(b)| == |multiset(a)| == |a|;
      SameHead(schema, sort, a, b);
      TailRows(a);
      TailRows(b);
      OrderUnique(schema, sort, a[1..], b[1..]);
    }
  }

  lemma TailRows(a: seq<Row>)
    requires a != []
    ensures a == [a[0]] + a[1..] && multiset(a[1..]) == multiset(a) - multiset{a[0]}
  {
    assert a == [a[0]] + a[1..];
  }

  /** The same row comes first. */
  lemma SameHead(schema: Schema, sort: Option<FieldSort>, a: seq<Row>, b: seq<Row>)
    requires AllOrdered(a) && AllOrdered(b) && a != [] && b != []
    requires InOrder(schema, sort, a) && InOrder(schema, sort, b) && multiset(a) == multiset(b)
    ensures a[0] == b[0]
  {
    hide Before, OrderedRow;
    assert a[0] in multiset(a) && b[0] in multiset(b);
    assert a[0] in b && b[0] in a;
    var i :| 0 <= i < |b| && b[i] == a[0];
    var j :| 0 <= j < |a| && a[j] == b[0];
    if i > 0 && j > 0 {
      assert Before(schema, sort, b[0], a[0]) && Before(schema, sort, a[0], b[0]);
      BeforeOrders(schema, sort, a[0], b[0], a[0]);
    }
  }

  // ---------------------------------------------------------------- pages

  function PageRows<T>(all: seq<T>, offset: nat, limit: nat): seq<T> {
    all[Min(offset, |all|)..Min(offset, |all|) + Min(limit, |all| - Min(offset, |all|))]
  }

  predicate PageMore<T>(all: seq<T>, offset: nat, limit: nat) {
    Min(offset, |all|) + Min(limit, |all| - Min(offset, |all|)) < |all|
  }

  /** The pages at 0, `limit`, twice `limit` and so on, up to the first that has nothing after it. */
  function AllPages<T>(all: seq<T>, offset: nat, limit: nat): seq<T>
    requires limit > 0
    decreases |all| - offset
  {
    PageRows(all, offset, limit)
    + if PageMore(all, offset, limit) then AllPages(all, offset + limit, limit) else []
  }

  /** Paging until there is no more gives every row once and in order; a page says that there is more exactly
    * when rows are left behind it. */
  lemma {:induction false} PagesCover<T>(all: seq<T>, offset: nat, limit: nat)
    requires limit > 0
    ensures AllPages(all, offset, limit) == all[Min(offset, |all|)..]
    ensures PageMore(all, offset, limit) <==> offset + limit < |all|
    decreases |all| - offset
  {
    if PageMore(all, offset, limit) {
      PagesCover(all, offset + limit, limit);
      assert PageRows(all, offset, limit) == all[offset..offset + limit];
      assert all[offset..] == all[offset..offset + limit] + all[offset + limit..];
    } else {
      assert PageRows(all, offset, limit) == all[Min(offset, |all|)..];
    }
  }

  /** Which of two rows stands first: one without the sort field before one with it, then by value, both the other way
    * round in a descending view; rows that the field does not tell apart stand by time and then by id. */
  lemma StandsFirst(schema: Schema, sort: FieldSort, a: Row, b: Row)
    requires OrderedRow(a) && OrderedRow(b) && a.id != b.id
    ensures var x, y := SortValue(schema, sort, a), SortValue(schema, sort, b);
      && (x.None? && y.Some? ==> (Before(schema, Some(sort), a, b) <==> !sort.descending))
      && (x.Some? && y.Some? && x.value.Int? && y.value.Int? && x.value.number < y.value.number ==>
            (Before(schema, Some(sort), a, b) <==> !sort.descending))
      && (x.Some? && y.Some? && CompareValues(x.value, y.value) < 0 ==>
            (Before(schema, Some(sort), a, b) <==> !sort.descending))
      && (x == y ==> (Before(schema, Some(sort), a, b) <==> Older(a, b)))
    ensures Before(schema, None, a, b) <==> Older(a, b)
  {
    hide SortValue, Less;
    var x := SortValue(schema, sort, a);
    if x.Some? {
      ComparisonOrders(x.value, x.value, x.value);
    }
  }

  /** Received earlier, or at the same time and stored earlier. */
  predicate Older(a: Row, b: Row) {
    a.record.receivedAtUs < b.record.receivedAtUs || (a.record.receivedAtUs == b.record.receivedAtUs && a.id < b.id)
  }

  /** On a page sorted by an integer field the row with the smaller integer stands first, or last if the view is
    * descending. */
  lemma PageSorted(schema: Schema, sort: FieldSort, rows: seq<Row>, offset: nat, limit: nat, p: nat, q: nat)
    requires AllOrdered(rows) && DistinctIds(rows)
    requires var page := PageRows(Arranged(schema, Some(sort), rows), offset, limit);
      && p < |page| && q < |page| && OrderedRow(page[p]) && OrderedRow(page[q])
      && var x, y := SortValue(schema, sort, page[p]), SortValue(schema, sort, page[q]);
         x.Some? && y.Some? && x.value.Int? && y.value.Int? && x.value.number < y.value.number
    ensures if sort.descending then q < p else p < q
  {
    hide Before, Arranged, SortValue;
    var all := Arranged(schema, Some(sort), rows);
    ArrangedInOrder(schema, Some(sort), rows);
    var page, at := PageRows(all, offset, limit), Min(offset, |all|);
    assert page[p] == all[at + p] && page[q] == all[at + q];
    ArrangedDistinct(schema, Some(sort), rows);
    assert p != q;
    assert page[p].id != page[q].id by {
      assert all[at + p].id != all[at + q].id;
    }
    StandsFirst(schema, sort, page[p], page[q]);
    if p < q {
      assert Before(schema, Some(sort), all[at + p], all[at + q]);
    } else {
      assert Before(schema, Some(sort), all[at + q], all[at + p]);
      BeforeOrders(schema, Some(sort), page[p], page[q], page[p]);
    }
  }

  // ---------------------------------------------------------------- the table

  ghost predicate Selects(view: View, schema: Schema, row: Row)
    requires OrderedRow(row) && ValidConditions(view.conditions)
  {
    && (view.device.Some? ==> view.device.value == row.record.device)
    && (view.fromUs.Some? ==> view.fromUs.value <= row.record.receivedAtUs)
    && (view.toUs.Some? ==> row.record.receivedAtUs <= view.toUs.value)
    && Matches(row.record, schema, view.conditions)
  }

  /** Both ends of the time range belong to it, and what lies outside is never selected. */
  lemma RangeIncluded(view: View, schema: Schema, row: Row)
    requires OrderedRow(row) && ValidConditions(view.conditions)
    ensures view.fromUs.Some? && row.record.receivedAtUs < view.fromUs.value ==> !Selects(view, schema, row)
    ensures view.toUs.Some? && row.record.receivedAtUs > view.toUs.value ==> !Selects(view, schema, row)
    ensures var at := Some(row.record.receivedAtUs);
      (&& view.conditions == [] && view.device.None?
       && (view.fromUs.None? || view.fromUs == at) && (view.toUs.None? || view.toUs == at)) ==> Selects(view, schema, row)
  {
    hide ValidConditions;
  }

  ghost function Selected(view: View, schema: Schema, entries: seq<Entry>): (rows: seq<Row>)
    requires ValidConditions(view.conditions)
    requires forall i :: 0 <= i < |entries| ==> OrderedRow(entries[i].row)
    ensures AllOrdered(rows)
    ensures forall r :: r in rows <==> exists i :: 0 <= i < |entries| && entries[i].row == r && Selects(view, schema, r)
  {
    if entries == [] then []
    else (if Selects(view, schema, entries[0].row) then [entries[0].row] else []) + Selected(view, schema, entries[1..])
  }

  datatype Outcome = Invalid | TooLarge | Stored

  datatype Page = Page(rows: seq<Row>, more: bool, revision: nat, failed: bool)

  class Table {
    const schema: Schema
    const maxRows: nat
    const maxBytes: nat
    var rows: seq<Entry>
    var bytes: nat
    var nextId: nat
    var revision: nat
    var failed: bool
    /** Every record the table ever stored. */
    ghost var stored: seq<Entry>

    ghost predicate Valid()
      reads this
    {
      && ValidSchema(schema) && maxRows >= 1
      && LongestEnd(rows, stored, maxRows, maxBytes)
      && bytes == TotalBytes(rows)
      && nextId == |stored| + 1
      && (forall i :: 0 <= i < |stored| ==> stored[i].row.id == i + 1 && OrderedRow(stored[i].row))
    }

    constructor (schema: Schema, maxRows: nat, maxBytes: nat)
      requires ValidSchema(schema) && 1 <= maxRows <= 1000 && 1 <= maxBytes <= 16 * 1024 * 1024
      ensures Valid() && rows == [] && stored == [] && revision == 0 && !failed
      ensures this.schema == schema && this.maxRows == maxRows && this.maxBytes == maxBytes
    {
      this.schema, this.maxRows, this.maxBytes := schema, maxRows, maxBytes;
      rows, bytes, nextId, revision, failed, stored := [], 0, 1, 0, false, [];
    }

    /** Stores a record of `size` bytes, dropping the oldest ones as far as the limits need it. */
    method Append(record: Record, size: nat) returns (outcome: Outcome)
      requires Valid()
      modifies this
      ensures Valid()
      ensures outcome.Invalid? <==> !ValidRecord(schema, record)
      ensures outcome.Invalid? ==> unchanged(this)
      ensures outcome.TooLarge? <==> ValidRecord(schema, record) && size > maxBytes
      ensures outcome.TooLarge? ==> rows == old(rows) && stored == old(stored) && failed
      ensures outcome.Stored? ==>
        && stored == old(stored) + [Entry.Entry(Row(old(nextId), record), size)] && rows != [] && !failed
      ensures !outcome.Invalid? ==> revision == old(revision) + 1
    {
      hide ValidRecord, ValidSchema, TotalBytes;
      if !ValidRecord(schema, record) {
        return Invalid;
      }
      revision := revision + 1;
      if size > maxBytes {
        failed := true;
        return TooLarge;
      }
      ghost var before := rows;
      var entry := Entry.Entry(Row(nextId, record), size);
      ghost var k := 0;
      while rows != [] && (|rows| >= maxRows || size > maxBytes - bytes)
        invariant k <= |before| && rows == before[k..] && bytes == TotalBytes(rows) && bytes <= maxBytes
        invariant nextId == old(nextId) && stored == old(stored) && revision == old(revision) + 1
        invariant k > 0 ==> !FitsLimits(before[k - 1..] + [entry], maxRows, maxBytes)
        decreases |rows|
      {
        TotalSnoc(rows, entry);
        TotalHead(rows);
        bytes := bytes - rows[0].bytes;
        rows := rows[1..];
        k := k + 1;
      }
      TotalSnoc(rows, entry);
      NoBytes();
      EndGrows(before, stored, entry, k, maxRows, maxBytes);
      ValidIsOrdered(schema, record);
      rows := rows + [entry];
      stored := stored + [entry];
      nextId := nextId + 1;
      bytes := bytes + size;
      failed := false;
      outcome := Stored;
    }

    /** One page of the selected rows in the view's order. */
    method GetPage(view: View) returns (page: Page)
      requires Valid() && ValidView(view)
      ensures forall i :: 0 <= i < |rows| ==> OrderedRow(rows[i].row)
      ensures var all := Arranged(schema, view.sort, Selected(view, schema, rows));
        && page.rows == PageRows(all, view.offset, view.limit)
        && page.more == PageMore(all, view.offset, view.limit)
        && InOrder(schema, view.sort, all) && DistinctIds(all)
      ensures page.revision == revision && page.failed == failed
    {
      hide TotalBytes, ValidSchema, Matches, Before, FitsLimits, Arranged, Selected;
      KeptRows(rows, stored, maxRows, maxBytes);
      ConditionsScalar(view.conditions);
      var matches: seq<Row> := [];
      NoneSelected(view, schema);
      for i := 0 to |rows|
        invariant AllOrdered(matches) && matches == Selected(view, schema, rows[..i])
      {
        var row := rows[i].row;
        var record := row.record;
        assert rows[..i + 1] == rows[..i] + [rows[i]];
        SelectedSnoc(view, schema, rows[..i], rows[i]);
        if (view.device.Some? && view.device.value != record.device)
           || (view.fromUs.Some? && record.receivedAtUs < view.fromUs.value)
           || (view.toUs.Some? && record.receivedAtUs > view.toUs.value) {
          continue;
        }
        var met := MatchesRecord(record, schema, view.conditions);
        if !met {
          continue;
        }
        matches := matches + [row];
      }
      assert rows[..|rows|] == rows;
      SelectedDistinct(view, schema, rows);
      var all := Arranged(schema, view.sort, matches);
      ArrangedInOrder(schema, view.sort, matches);
      ArrangedDistinct(schema, view.sort, matches);
      var begin := Min(view.offset, |all|);
      var end := begin + Min(view.limit, |all| - begin);
      page := Page(all[begin..end], end < |all|, revision, failed);
    }
  }

  lemma TotalHead(entries: seq<Entry>)
    requires entries != []
    ensures TotalBytes(entries) == entries[0].bytes + TotalBytes(entries[1..])
  {
  }

  lemma NoBytes()
    ensures TotalBytes([]) == 0
  {
  }

  lemma ValidIsOrdered(schema: Schema, record: Record)
    requires ValidRecord(schema, record)
    ensures OrderedValues(record.values)
  {
    forall i | 0 <= i < |record.values| ensures Ordered(record.values[i]) {
      assert Fits(schema.fields[i], record.values[i]);
      FiniteOrdered(record.values[i]);
    }
  }

  lemma ConditionsScalar(conditions: seq<Condition>)
    requires ValidConditions(conditions)
    ensures forall i :: 0 <= i < |conditions| ==> IsScalar(conditions[i].value)
  {
    forall i | 0 <= i < |conditions| ensures IsScalar(conditions[i].value) {
      assert ValidCondition(conditions[i]);
    }
  }

  lemma KeptRows(rows: seq<Entry>, stored: seq<Entry>, maxRows: nat, maxBytes: nat)
    requires LongestEnd(rows, stored, maxRows, maxBytes)
    requires forall i :: 0 <= i < |stored| ==> stored[i].row.id == i + 1 && OrderedRow(stored[i].row)
    ensures forall i :: 0 <= i < |rows| ==>
      rows[i].row.id == |stored| - |rows| + i + 1 && OrderedRow(rows[i].row)
  {
    forall i | 0 <= i < |rows| ensures rows[i] == stored[|stored| - |rows| + i] {
      assert rows[i] == Last(stored, |rows|)[i];
    }
  }

  lemma NoneSelected(view: View, schema: Schema)
    requires ValidConditions(view.conditions)
    ensures Selected(view, schema, []) == []
  {
  }

  lemma {:induction false} SelectedSnoc(view: View, schema: Schema, entries: seq<Entry>, e: Entry)
    requires ValidConditions(view.conditions)
    requires forall i :: 0 <= i < |entries| ==> OrderedRow(entries[i].row)
    requires OrderedRow(e.row)
    ensures Selected(view, schema, entries + [e])
         == Selected(view, schema, entries) + (if Selects(view, schema, e.row) then [e.row] else [])
  {
    hide Selects;
    if entries == [] {
      assert [e][1..] == [] && entries + [e] == [e];
    } else {
      assert (entries + [e])[1..] == entries[1..] + [e];
      SelectedSnoc(view, schema, entries[1..], e);
    }
  }

  lemma {:induction false} SelectedDistinct(view: View, schema: Schema, entries: seq<Entry>)
    requires ValidConditions(view.conditions)
    requires forall i :: 0 <= i < |entries| ==> OrderedRow(entries[i].row)
    requires forall i, j :: 0 <= i < j < |entries| ==> entries[i].row.id != entries[j].row.id
    ensures DistinctIds(Selected(view, schema, entries))
  {
    hide Selects, OrderedRow;
    if entries != [] {
      SelectedDistinct(view, schema, entries[1..]);
      var rest := Selected(view, schema, entries[1..]);
      forall i | 0 <= i < |rest| ensures rest[i].id != entries[0].row.id {
        assert rest[i] in rest;
        var k :| 0 <= k < |entries[1..]| && entries[1..][k].row == rest[i];
        assert entries[k + 1].row == rest[i];
      }
    }
  }

  lemma ArrangedDistinct(schema: Schema, sort: Option<FieldSort>, rows: seq<Row>)
    requires AllOrdered(rows) && DistinctIds(rows)
    ensures DistinctIds(Arranged(schema, sort, rows))
  {
    hide Before;
    var all := Arranged(schema, sort, rows);
    ArrangedInOrder(schema, sort, rows);
    forall i, j | 0 <= i < j < |all| ensures all[i].id != all[j].id {
      assert Before(schema, sort, all[i], all[j]);
      BeforeOrders(schema, sort, all[i], all[j], all[i]);
      assert all[i] in multiset(all) && all[j] in multiset(all);
      assert all[i] in rows && all[j] in rows;
    }
  }
}
