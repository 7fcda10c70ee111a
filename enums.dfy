/** A lookup table of (index, value) pairs, searched by index or by value
    (domain/enums.go). */
module Enums {
  import opened Common
  import opened GoStrings

  datatype EnumItem = EnumItem(index: int, value: string)

  /** Position k holds the first item whose stored index is `index`. */
  ghost predicate FirstWithIndex(items: seq<EnumItem>, k: int, index: int) {
    0 <= k < |items| && items[k].index == index && forall j :: 0 <= j < k ==> items[j].index != index
  }

  /** Position k holds the last item whose stored index is `index`. */
  ghost predicate LastWithIndex(items: seq<EnumItem>, k: int, index: int) {
    0 <= k < |items| && items[k].index == index && forall j :: k < j < |items| ==> items[j].index != index
  }

  ghost predicate HasIndex(items: seq<EnumItem>, index: int) {
    exists k :: 0 <= k < |items| && items[k].index == index
  }

  datatype Enum = Enum(items: seq<EnumItem>) {

    /** The value of the first item whose stored index is `index`; "" and a
        NotFound error when no item carries it. */
    function Value(index: int): (r: Lookup<string>)
      ensures forall k :: FirstWithIndex(items, k, index) ==> r == Lookup(items[k].value, None)
      ensures (forall k :: 0 <= k < |items| ==> items[k].index != index)
                ==> r == Lookup("", Some(NotFoundError("No item with index " + IntToString(index) + " found")))
      decreases |items|
    {
      if |items| == 0 then Lookup("", Some(NotFoundError("No item with index " + IntToString(index) + " found")))
      else
        var last := |items| - 1;
        var prefix := Enum(items[..last]);
        var prior := prefix.Value(index);
        assert forall k :: FirstWithIndex(items, k, index) && k < last ==> FirstWithIndex(prefix.items, k, index);
        if prior.err.None? then prior
        else if items[last].index == index then Lookup(items[last].value, None)
        else prior
    }

    /** The slice position (not the stored index) of the first item whose
        value equals `value` ignoring case; 0 and a NotFound error when none
        does. */
    function Index(value: string): (r: Lookup<int>)
      ensures r.err.None? ==> 0 <= r.value < |items| && EqualFold(value, items[r.value].value)
      ensures r.err.None? ==> forall j :: 0 <= j < r.value ==> !EqualFold(value, items[j].value)
      ensures r.err.Some? ==> forall k :: 0 <= k < |items| ==> !EqualFold(value, items[k].value)
      ensures r.err.Some? ==> r == Lookup(0, Some(NotFoundError("No item with name " + value + " found")))
      decreases |items|
    {
      if |items| == 0 then Lookup(0, Some(NotFoundError("No item with name " + value + " found")))
      else
        var prior := Enum(items[..|items| - 1]).Index(value);
        if prior.err.None? then prior
        else if EqualFold(value, items[|items| - 1].value) then Lookup(|items| - 1, None)
        else prior
    }

    /** Every item's value, in item order. */
    function Values(): (names: seq<string>)
      ensures |names| == |items|
      ensures forall k :: 0 <= k < |items| ==> names[k] == items[k].value
      decreases |items|
    {
      if |items| == 0 then []
      else Enum(items[..|items| - 1]).Values() + [items[|items| - 1].value]
    }

    /** The table as a map from stored index to value; of several items with
        the same index the later one wins. */
    function AsMap(): (m: map<int, string>)
      ensures forall k :: 0 <= k < |items| ==> items[k].index in m
      ensures forall i :: i in m ==> HasIndex(items, i)
      ensures forall k, i :: LastWithIndex(items, k, i) ==> m[i] == items[k].value
      decreases |items|
    {
      if |items| == 0 then map[]
      else
        var last := |items| - 1;
        var prefix := Enum(items[..last]);
        var prior := prefix.AsMap();
        assert forall k, i :: LastWithIndex(items, k, i) && k < last ==> LastWithIndex(prefix.items, k, i);
        assert forall i :: HasIndex(prefix.items, i) ==> HasIndex(items, i);
        prior[items[last].index := items[last].value]
    }
  }

  ghost predicate ItemFrom(m: map<int, string>, item: EnumItem) {
    item.index in m && m[item.index] == item.value
  }

  /** `added` holds one item per key of `position`, which records where. */
  ghost predicate Placed(m: map<int, string>, added: seq<EnumItem>, position: map<int, int>) {
    && position.Keys <= m.Keys
    && |added| == |position|
    && (forall k :: 0 <= k < |added| ==> ItemFrom(m, added[k]) && added[k].index in position)
    && (forall i :: i in position ==> 0 <= position[i] < |added| && added[position[i]] == EnumItem(i, m[i]))
  }

  lemma PlaceEntry(m: map<int, string>, added: seq<EnumItem>, position: map<int, int>, index: int)
    requires Placed(m, added, position) && index in m && index !in position
    ensures Placed(m, added + [EnumItem(index, m[index])], position[index := |added|])
  {
    var added' := added + [EnumItem(index, m[index])];
    assert forall k :: 0 <= k < |added| ==> added'[k] == added[k];
  }

  /** FromMap: appends one item per map entry, in the map's (unspecified)
      iteration order, after the existing items. */
  method FromMap(e: Enum, m: map<int, string>) returns (r: Enum)
    ensures |r.items| == |e.items| + |m|
    ensures r.items[..|e.items|] == e.items
    ensures forall k :: |e.items| <= k < |r.items| ==> ItemFrom(m, r.items[k])
    ensures forall i :: i in m ==> exists k :: |e.items| <= k < |r.items| && r.items[k] == EnumItem(i, m[i])
  {
    var added: seq<EnumItem> := [];
    var remaining := m.Keys;
    ghost var position: map<int, int> := map[];
    while remaining != {}
      invariant forall i :: i in m <==> i in remaining || i in position
      invariant forall i :: i in remaining ==> i !in position
      invariant Placed(m, added, position)
    {
      var index := Pick(remaining);
      PlaceEntry(m, added, position, index);
      position := position[index := |added|];
      added := added + [EnumItem(index, m[index])];
      remaining := remaining - {index};
    }
    r := Enum(e.items + added);
    Appended(e.items, added, m, position);
  }

  /** Once every key is placed, the extended table has the promised shape. */
  lemma Appended(prefix: seq<EnumItem>, added: seq<EnumItem>, m: map<int, string>, position: map<int, int>)
    requires Placed(m, added, position) && forall i :: i in m ==> i in position
    ensures |prefix + added| == |prefix| + |m|
    ensures (prefix + added)[..|prefix|] == prefix
    ensures forall k :: |prefix| <= k < |prefix + added| ==> ItemFrom(m, (prefix + added)[k])
    ensures forall i :: i in m ==> exists k :: |prefix| <= k < |prefix + added| && (prefix + added)[k] == EnumItem(i, m[i])
  {
    forall i ensures i in position.Keys <==> i in m.Keys { }
    assert position.Keys == m.Keys;
    assert |position| == |m| by { assert |position.Keys| == |m.Keys|; }
    forall i | i in m
      ensures exists k :: |prefix| <= k < |prefix + added| && (prefix + added)[k] == EnumItem(i, m[i])
    {
      var k := |prefix| + position[i];
      assert (prefix + added)[k] == added[position[i]];
    }
  }

  /** When every item's stored index is its position, looking a position up
      by index finds that very item. */
  lemma PositionalValue(e: Enum, k: int)
    requires forall j :: 0 <= j < |e.items| ==> e.items[j].index == j
    requires 0 <= k < |e.items|
    ensures e.Value(k) == Lookup(e.items[k].value, None)
  {
    assert e.items[k].index == k;
  }

  /** In such a table, Index and Value round-trip: the value found for the
      position that Index returns is the table's spelling of the name. */
  lemma PositionalRoundTrip(e: Enum, name: string)
    requires forall j :: 0 <= j < |e.items| ==> e.items[j].index == j
    requires e.Index(name).err.None?
    ensures e.Value(e.Index(name).value) == Lookup(e.items[e.Index(name).value].value, None)
    ensures EqualFold(name, e.Value(e.Index(name).value).value)
  {
    PositionalValue(e, e.Index(name).value);
  }
}
