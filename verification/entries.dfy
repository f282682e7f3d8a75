/** ODataEntry, the record every handler operation reads and returns: an ordered mapping from
    column name to a value that may be null. `Names` gives the insertion order; adding a value
    for a name already present replaces it in place. */
module Entries {
  import opened Common

  datatype Field = Field(name: string, value: Option<string>)

  datatype Entry = Entry(fields: seq<Field>) {

    /** No name occurs twice. */
    predicate Valid() {
      forall i, j :: 0 <= i < j < |fields| ==> fields[i].name != fields[j].name
    }

    /** `getNames()`: the names in insertion order. */
    function Names(): (r: seq<string>)
      ensures |r| == |fields|
      ensures forall k :: 0 <= k < |fields| ==> r[k] == fields[k].name
    {
      seq(|fields|, k requires 0 <= k < |fields| => fields[k].name)
    }

    /** Position of `name`, if present. */
    function IndexOf(name: string): (r: Option<nat>)
      ensures r.Some? ==> r.value < |fields| && fields[r.value].name == name
      ensures r.None? <==> name !in Names()
      ensures r.Some? ==> forall k :: 0 <= k < r.value ==> fields[k].name != name
    {
      IndexFrom(name, 0)
    }

    function IndexFrom(name: string, start: nat): (r: Option<nat>)
      requires start <= |fields|
      ensures r.Some? ==> start <= r.value < |fields| && fields[r.value].name == name
      ensures r.Some? ==> forall k :: start <= k < r.value ==> fields[k].name != name
      ensures r.None? <==> forall k :: start <= k < |fields| ==> fields[k].name != name
      decreases |fields| - start
    {
      if start == |fields| then None
      else if fields[start].name == name then Some(start)
      else IndexFrom(name, start + 1)
    }

    /** `getValue(name)`: null both for an absent name and for a name holding null. */
    function GetValue(name: string): (r: Option<string>)
      ensures name !in Names() ==> r == None
    {
      match IndexOf(name)
      case None => None
      case Some(i) => fields[i].value
    }

    /** `addValue(name, value)`: replaces the value in place when the name is present, and
        appends a new field at the end otherwise. */
    function AddValue(name: string, value: Option<string>): (e: Entry)
      ensures e.GetValue(name) == value
      ensures forall n :: n != name ==> e.GetValue(n) == GetValue(n)
      ensures e.Names() == if name in Names() then Names() else Names() + [name]
      ensures Valid() ==> e.Valid()
    {
      match IndexOf(name)
      case Some(i) =>
        var e := Entry(fields[i := Field(name, value)]);
        assert e.Names() == Names();
        FirstIndex(e, name, i);
        assert forall n :: n != name ==> e.GetValue(n) == GetValue(n) by {
          forall n | n != name && n in Names() ensures e.GetValue(n) == GetValue(n) {
            FirstIndex(e, n, IndexOf(n).value);
          }
        }
        e
      case None =>
        var e := Entry(fields + [Field(name, value)]);
        assert e.Names() == Names() + [name];
        assert e.IndexOf(name) == Some(|fields|) by {
          var r := e.IndexFrom(name, 0);
          assert e.fields[|fields|].name == name;
          assert forall k :: 0 <= k < |fields| ==> e.fields[k].name != name;
          assert r.Some?;
        }
        assert forall n :: n != name ==> e.GetValue(n) == GetValue(n) by {
          forall n | n != name ensures e.GetValue(n) == GetValue(n) {
            if n in Names() {
              var i := IndexOf(n).value;
              FirstIndex(e, n, i);
            } else {
              assert n !in e.Names();
            }
          }
        }
        e
    }
  }

  /** The position of the first field named `n` is the position `IndexOf` reports. */
  lemma FirstIndex(e: Entry, n: string, i: nat)
    requires i < |e.fields| && e.fields[i].name == n
    requires forall k :: 0 <= k < i ==> e.fields[k].name != n
    ensures e.IndexOf(n) == Some(i)
  {
    assert n in e.Names() by { assert e.Names()[i] == n; }
  }

  /** `new ODataEntry()`. */
  const Empty: Entry := Entry([])

  /** An entry holding `value` under every name of `names` (later duplicates collapse). */
  function AllTo(names: seq<string>, value: Option<string>): (e: Entry)
    ensures e.Valid()
    ensures forall n :: n in names ==> e.GetValue(n) == value
    ensures forall n :: n in e.Names() <==> n in names
  {
    if |names| == 0 then Empty
    else AllTo(names[..|names| - 1], value).AddValue(names[|names| - 1], value)
  }

  /** The entry that copies the value of every name of `columns` from `source`, adding the
      names in order (a repeated name keeps its first position). */
  function CopyColumns(columns: seq<string>, source: Entry): (e: Entry)
    ensures forall n :: n in e.Names() <==> n in columns
    ensures forall n :: n in columns ==> e.GetValue(n) == source.GetValue(n)
  {
    if |columns| == 0 then Empty
    else
      var init := columns[..|columns| - 1];
      var last := columns[|columns| - 1];
      assert forall n :: n in columns <==> n in init || n == last by {
        assert columns == init + [last];
      }
      CopyColumns(init, source).AddValue(last, source.GetValue(last))
  }
}
