/** The two loops every statement builder of both handlers is made of: the `StringBuilder`
    loop that appends the kept items with a separator before all but the first (guarded by a
    `propertyMatch` flag), and the loop that binds values to positional `?` placeholders with a
    running `index` that starts at 1. */
module Clauses {
  import opened Common
  import opened Text
  import opened Entries

  /** Appends to `prefix` every item that passes `keep`, rendered, separated by `sep`. */
  method AppendEach<T>(prefix: string, items: seq<T>, keep: T -> bool, render: T -> string, sep: string)
    returns (out: string)
    ensures out == prefix + Join(Select(items, keep, render), sep)
  {
    out := prefix;
    var propertyMatch := false;
    var i := 0;
    while i < |items|
      invariant 0 <= i <= |items|
      invariant out == prefix + Join(Select(items[..i], keep, render), sep)
      invariant propertyMatch <==> |Select(items[..i], keep, render)| > 0
    {
      SelectStep(items, i, keep, render);
      if keep(items[i]) {
        ghost var before := Select(items[..i], keep, render);
        AppendStep(prefix, before, render(items[i]), sep);
        if propertyMatch {
          out := out + sep;
        }
        out := out + render(items[i]);
        propertyMatch := true;
      } else {
        assert Select(items[..i + 1], keep, render) == Select(items[..i], keep, render);
      }
      i := i + 1;
    }
    assert items[..|items|] == items;
  }

  /** Selecting from one more item adds that item when it is kept. */
  lemma SelectStep<T>(items: seq<T>, i: nat, keep: T -> bool, render: T -> string)
    requires i < |items|
    ensures Select(items[..i + 1], keep, render)
            == Select(items[..i], keep, render) + (if keep(items[i]) then [render(items[i])] else [])
  {
    assert items[..i + 1][..i] == items[..i];
  }

  /** Appending an item to the joined text: with a separator unless nothing was joined yet. */
  lemma AppendStep(prefix: string, before: seq<string>, x: string, sep: string)
    ensures (if |before| > 0 then prefix + Join(before, sep) + sep + x else prefix + Join(before, sep) + x)
            == prefix + Join(before + [x], sep)
  {
    JoinSnoc(before, x, sep);
  }

  /** One entry of a table's column-type map (`rdbmsDataTypes.get(table)`): a column and its
      `java.sql.Types` code. The map's key order is kept as the order of the sequence. */
  datatype ColumnType = ColumnType(name: string, code: int)

  /** The map's key set, in iteration order. */
  function ColumnsOf(types: seq<ColumnType>): (r: seq<string>)
    ensures |r| == |types|
    ensures forall k :: 0 <= k < |types| ==> r[k] == types[k].name
  {
    seq(|types|, k requires 0 <= k < |types| => types[k].name)
  }

  /** `map.get(column)`: the code of the first entry for `column`, if any. */
  function TypeOf(types: seq<ColumnType>, column: string): (r: Option<int>)
    ensures r.Some? <==> column in ColumnsOf(types)
  {
    if |types| == 0 then None
    else if types[0].name == column then Some(types[0].code)
    else
      assert ColumnsOf(types) == [types[0].name] + ColumnsOf(types[1..]);
      TypeOf(types[1..], column)
  }

  /** `map.put(column, code)`: replaces the code of a column already present, in place, and
      appends a new column otherwise. */
  function PutType(types: seq<ColumnType>, column: string, code: int): seq<ColumnType> {
    if |types| == 0 then [ColumnType(column, code)]
    else if types[0].name == column then [ColumnType(column, code)] + types[1..]
    else [types[0]] + PutType(types[1..], column, code)
  }

  /** After `put`, the column has the new code, every other column keeps its code, and the
      column order changes only by a new column at the end. */
  lemma PutTypeSpec(types: seq<ColumnType>, column: string, code: int)
    ensures TypeOf(PutType(types, column, code), column) == Some(code)
    ensures forall other :: other != column ==> TypeOf(PutType(types, column, code), other) == TypeOf(types, other)
    ensures ColumnsOf(PutType(types, column, code))
      == if column in ColumnsOf(types) then ColumnsOf(types) else ColumnsOf(types) + [column]
  {
    PutTypeCode(types, column, code);
    forall other | other != column
      ensures TypeOf(PutType(types, column, code), other) == TypeOf(types, other)
    {
      PutTypeOther(types, column, code, other);
    }
    PutTypeColumns(types, column, code);
  }

  lemma {:induction false} PutTypeCode(types: seq<ColumnType>, column: string, code: int)
    ensures TypeOf(PutType(types, column, code), column) == Some(code)
  {
    if |types| > 0 && types[0].name != column {
      PutTypeCode(types[1..], column, code);
      assert ([types[0]] + PutType(types[1..], column, code))[1..] == PutType(types[1..], column, code);
    }
  }

  lemma {:induction false} PutTypeOther(types: seq<ColumnType>, column: string, code: int, other: string)
    requires other != column
    ensures TypeOf(PutType(types, column, code), other) == TypeOf(types, other)
  {
    if |types| == 0 {
    } else if types[0].name == column {
      assert PutType(types, column, code)[1..] == types[1..];
    } else if types[0].name != other {
      PutTypeOther(types[1..], column, code, other);
      assert PutType(types, column, code)[1..] == PutType(types[1..], column, code);
    }
  }

  lemma {:induction false} PutTypeColumns(types: seq<ColumnType>, column: string, code: int)
    ensures ColumnsOf(PutType(types, column, code))
      == if column in ColumnsOf(types) then ColumnsOf(types) else ColumnsOf(types) + [column]
  {
    var r := PutType(types, column, code);
    if |types| == 0 {
      assert ColumnsOf(r) == [column];
    } else if types[0].name == column {
      assert ColumnsOf(r) == ColumnsOf(types) by {
        assert r[1..] == types[1..];
      }
      assert column in ColumnsOf(types) by { assert ColumnsOf(types)[0] == column; }
    } else {
      var rest := PutType(types[1..], column, code);
      PutTypeColumns(types[1..], column, code);
      assert ColumnsOf(types) == [types[0].name] + ColumnsOf(types[1..]);
      assert ColumnsOf(r) == [types[0].name] + ColumnsOf(rest) by {
        assert r[1..] == rest;
      }
      if column in ColumnsOf(types[1..]) {
        assert column in ColumnsOf(types);
      } else {
        assert column !in ColumnsOf(types);
        assert [types[0].name] + (ColumnsOf(types[1..]) + [column]) == ColumnsOf(types) + [column];
      }
    }
  }

  /** Every column of `columns` has an entry in the type map. */
  predicate AllTyped(types: seq<ColumnType>, columns: seq<string>) {
    forall c :: c in columns ==> c in ColumnsOf(types)
  }

  /** A value bound to the placeholder at `position` (1-based), taken from `column`, with the
      column's JDBC type (which decides `setNull`'s type and the setter). */
  datatype Binding = Binding(position: nat, column: string, sqlType: int, value: Option<string>)

  /** The bindings for `columns` with values read from `entry`, at positions from `start` on. */
  function Positioned(start: nat, columns: seq<string>, entry: Entry, types: seq<ColumnType>): (r: seq<Binding>)
    requires AllTyped(types, columns)
    ensures |r| == |columns|
    ensures forall k :: 0 <= k < |r| ==> r[k].position == start + k && r[k].column == columns[k]
    ensures forall k :: 0 <= k < |r| ==> r[k].value == entry.GetValue(columns[k])
    ensures forall k :: 0 <= k < |r| ==> Some(r[k].sqlType) == TypeOf(types, columns[k])
  {
    seq(|columns|, k requires 0 <= k < |columns| =>
      Binding(start + k, columns[k], TypeOf(types, columns[k]).value, entry.GetValue(columns[k])))
  }

  /** The outcome of binding `columns` in order: a column missing from the type map makes the
      unboxing of its `Integer` type fail with a null dereference. */
  function Bound(start: nat, columns: seq<string>, entry: Entry, types: seq<ColumnType>): (r: Result<seq<Binding>>)
    ensures r.Ok? <==> AllTyped(types, columns)
    ensures r.Ok? ==> |r.value| == |columns|
  {
    if AllTyped(types, columns) then Ok(Positioned(start, columns, entry, types))
    else Err(NullDereference)
  }

  const NullDereference: Fault := RuntimeFault("NullPointerException")

  /** The running-index loop: binds, in order, the value and type of every name that passes
      `keep`, advancing the index by one per binding. */
  method BindEach(start: nat, names: seq<string>, keep: string -> bool, entry: Entry, types: seq<ColumnType>)
    returns (r: Result<seq<Binding>>)
    ensures r == Bound(start, Filter(names, keep), entry, types)
  {
    var bound: seq<Binding> := [];
    var index := start;
    var i := 0;
    while i < |names|
      invariant 0 <= i <= |names|
      invariant Bound(start, Filter(names[..i], keep), entry, types) == Ok(bound)
      invariant index == start + |bound|
    {
      FilterStep(names, i, keep);
      if keep(names[i]) {
        var sqlType := TypeOf(types, names[i]);
        if sqlType.None? {
          UntypedFails(start, names, keep, names[i], entry, types);
          return Err(NullDereference);
        }
        assert AllTyped(types, Filter(names[..i], keep));
        PositionedSnoc(start, Filter(names[..i], keep), names[i], entry, types);
        bound := bound + [Binding(index, names[i], sqlType.value, entry.GetValue(names[i]))];
        index := index + 1;
      } else {
        assert Filter(names[..i + 1], keep) == Filter(names[..i], keep);
      }
      i := i + 1;
    }
    assert names[..|names|] == names;
    return Ok(bound);
  }

  lemma FilterStep(names: seq<string>, i: nat, keep: string -> bool)
    requires i < |names|
    ensures Filter(names[..i + 1], keep) == Filter(names[..i], keep) + (if keep(names[i]) then [names[i]] else [])
  {
    assert names[..i + 1][..i] == names[..i];
  }

  lemma UntypedFails(start: nat, names: seq<string>, keep: string -> bool, x: string, entry: Entry, types: seq<ColumnType>)
    requires x in names && keep(x) && x !in ColumnsOf(types)
    ensures Bound(start, Filter(names, keep), entry, types) == Err(NullDereference)
  {
    FilterMembership(names, keep, x);
  }

  lemma PositionedSnoc(start: nat, columns: seq<string>, last: string, entry: Entry, types: seq<ColumnType>)
    requires AllTyped(types, columns) && last in ColumnsOf(types)
    ensures AllTyped(types, columns + [last])
    ensures Positioned(start, columns + [last], entry, types)
      == Positioned(start, columns, entry, types)
         + [Binding(start + |columns|, last, TypeOf(types, last).value, entry.GetValue(last))]
  {
  }

  /** Two runs of bindings laid end to end number their placeholders consecutively. */
  lemma PositionedAppend(start: nat, a: seq<string>, b: seq<string>, entry: Entry, types: seq<ColumnType>)
    requires AllTyped(types, a) && AllTyped(types, b)
    ensures AllTyped(types, a + b)
    ensures Positioned(start, a, entry, types) + Positioned(start + |a|, b, entry, types)
      == Positioned(start, a + b, entry, types)
  {
  }

  /** `column = ?` as every builder appends it: the column, " = ", then " ? ". */
  function Condition(column: string): string {
    column + " = " + " ? "
  }

  /** Names that hold no `?`, as table and column names never do. */
  predicate PlainNames(names: seq<string>) {
    forall k :: 0 <= k < |names| ==> '?' !in names[k]
  }

  lemma ConditionCount(column: string)
    requires '?' !in column
    ensures CountChar(Condition(column), '?') == 1
  {
    var tail := " = " + " ? ";
    assert tail == " =  " + "?" + " ";
    CountAbsent(column, '?');
    CountAbsent(" =  ", '?');
    CountAbsent(" ", '?');
    assert CountChar("?", '?') == 1 by {
      assert "?"[..0] == "";
    }
    CountCharAppend(" =  ", "?", '?');
    CountCharAppend(" =  " + "?", " ", '?');
    CountCharAppend(column, tail, '?');
    assert Condition(column) == column + tail;
  }

  /** A list of conditions over plain names holds one placeholder per condition. */
  lemma ConditionsCount(columns: seq<string>, sep: string)
    requires PlainNames(columns) && '?' !in sep
    ensures CountChar(Join(MapSeq(columns, Condition), sep), '?') == |columns|
  {
    var items := MapSeq(columns, Condition);
    forall k | 0 <= k < |items|
      ensures CountChar(items[k], '?') == 1
    {
      ConditionCount(columns[k]);
    }
    JoinOnesCount(items, sep, '?');
  }

  lemma FilterPlain(names: seq<string>, keep: string -> bool)
    requires PlainNames(names)
    ensures PlainNames(Filter(names, keep))
  {
    forall k | 0 <= k < |Filter(names, keep)|
      ensures '?' !in Filter(names, keep)[k]
    {
      FilterMembership(names, keep, Filter(names, keep)[k]);
    }
  }

  /** Prefix text without `?` followed by placeholder clauses: the count is the clauses'. */
  lemma CountAfterPlain(plain: string, rest: string)
    requires '?' !in plain
    ensures CountChar(plain + rest, '?') == CountChar(rest, '?')
  {
    CountCharAppend(plain, rest, '?');
    CountAbsent(plain, '?');
  }

  /** Text without `?` between two parts adds nothing to their count. */
  lemma CountSplice(a: string, plain: string, b: string)
    requires '?' !in plain
    ensures CountChar(a + plain + b, '?') == CountChar(a, '?') + CountChar(b, '?')
  {
    CountCharAppend(a, plain, '?');
    CountCharAppend(a + plain, b, '?');
    CountAbsent(plain, '?');
  }

  /** Names without `?` joined by a separator without `?` give text without `?`. */
  lemma {:induction false} JoinPlain(items: seq<string>, sep: string)
    requires PlainNames(items) && '?' !in sep
    ensures '?' !in Join(items, sep)
  {
    if |items| > 1 {
      JoinPlain(items[..|items| - 1], sep);
    }
  }
}
