/**
 * The value `JSON.parse` hands to `parseJsonData`. Object key order plays
 * no part in the extraction, so an object is a map; duplicate keys have
 * already been resolved by the parser.
 */
module Json {
  import opened Series

  datatype JValue =
    | JNull
    | JBool(b: bool)
    | JNumber(n: real)
    | JString(s: string)
    | JArray(elems: seq<JValue>)
    | JObject(fields: map<string, JValue>)

  /** Reading property `key` of a value that is not `null`: an object
      yields its member, if present; every other JSON value has no
      property called `label` or `value`, so the read is `undefined`
      (`None`). Reading a property of `null` throws instead, which
      callers rule out before asking. */
  function Property(item: JValue, key: string): Option<JValue>
  {
    if item.JObject? && key in item.fields then Some(item.fields[key]) else None
  }

  /** Converting the value to a string, the first thing `parseFloat` does
      with its argument, throws a TypeError. An object with its own
      `toString` member has no callable `toString`, and its `valueOf`
      (its own member, not callable either, or the inherited one, which
      returns the object itself) yields no primitive, so the conversion
      throws; any other object becomes "[object Object]". An array
      becomes the `join` of its elements, which converts every element
      that is not `null` in turn. Scalars always convert. */
  predicate ToStringThrows(v: JValue)
  {
    match v
    case JObject(fields) => "toString" in fields
    case JArray(elems) => exists i :: 0 <= i < |elems| && ToStringThrows(elems[i])
    case _ => false
  }
}

/**
 * `parseJsonData` (app.js:80-102): reject anything but an array, walk its
 * elements in order, push `label` and the coerced `value` of each element
 * whose two properties are defined, and give up when nothing was pushed.
 */
module JsonExtract {
  import opened Series
  import opened Json

  /** Both properties are defined: the element is an object with members
      `label` and `value`, whatever their values (`null`, `0` and `""`
      included). */
  predicate HasLabelAndValue(item: JValue)
  {
    item.JObject? && "label" in item.fields && "value" in item.fields
  }

  /** What one array element contributes to the chart, if anything. */
  function JsonEntry(item: JValue): (e: Option<Entry<JValue, JValue>>)
    ensures e.Some? <==> HasLabelAndValue(item)
    ensures e.Some? ==> e.value == Entry(item.fields["label"], item.fields["value"])
  {
    match (Property(item, "label"), Property(item, "value"))
    case (Some(l), Some(v)) => Some(Entry(l, v))
    case _ => None
  }

  /** Visiting this element throws a TypeError out of the `forEach`:
      reading `label` of `null`, or `parseFloat` of the `value` of an
      element that is kept. */
  predicate Throws(item: JValue)
  {
    item.JNull? || (HasLabelAndValue(item) && ToStringThrows(item.fields["value"]))
  }

  predicate SomeElementThrows(items: seq<JValue>)
  {
    exists j :: 0 <= j < |items| && Throws(items[j])
  }

  /** No element of `items` throws, checked element by element from the
      back, the way the loop meets them. */
  predicate NoneThrows(items: seq<JValue>)
  {
    |items| == 0 || (NoneThrows(items[..|items| - 1]) && !Throws(items[|items| - 1]))
  }

  lemma {:induction false} NoneThrowsSpec(items: seq<JValue>)
    ensures NoneThrows(items) <==> !SomeElementThrows(items)
  {
    if |items| != 0 {
      var n := |items| - 1;
      NoneThrowsSpec(items[..n]);
      assert forall j :: 0 <= j < n ==> items[..n][j] == items[j];
    }
  }

  lemma NoneThrowsStep(items: seq<JValue>, i: nat)
    requires i < |items|
    ensures NoneThrows(items[..i + 1]) <==> NoneThrows(items[..i]) && !Throws(items[i])
  {
    assert items[..i + 1][..i] == items[..i];
  }

  /** The outcome `parseJsonData` reaches on a parsed value. Which element
      throws first makes no difference: the handler's `catch` sees the
      same TypeError either way. */
  function JsonOutcome(data: JValue, parseFloat: JValue -> Number): Outcome<JValue>
  {
    if !data.JArray? then Failed(NotAnArray)
    else if SomeElementThrows(data.elems) then Failed(TypeErrorThrown)
    else Finish(Kept(data.elems, JsonEntry), parseFloat)
  }

  /** A throwing element decides the outcome, wherever it sits. */
  lemma ThrowDecides(items: seq<JValue>, i: nat, parseFloat: JValue -> Number)
    requires i < |items| && Throws(items[i])
    ensures JsonOutcome(JArray(items), parseFloat) == Failed(TypeErrorThrown)
  {
  }

  /** With no throwing element, the outcome is that of the kept entries. */
  lemma NoThrowFinishes(items: seq<JValue>, parseFloat: JValue -> Number)
    requires NoneThrows(items)
    ensures JsonOutcome(JArray(items), parseFloat) == Finish(Kept(items, JsonEntry), parseFloat)
  {
    NoneThrowsSpec(items);
  }

  /** The extraction loop of `parseJsonData`: `labels` and `dataPoints`
      start empty and grow with `push`, an element lacking a property is
      skipped, and a `null` element or a value that cannot become a
      string aborts with a TypeError. */
  method ParseJsonData(data: JValue, parseFloat: JValue -> Number) returns (out: Outcome<JValue>)
    ensures out == JsonOutcome(data, parseFloat)
  {
    if !data.JArray? {
      return Failed(NotAnArray);
    }
    var items := data.elems;
    var labels: seq<JValue> := [];
    var dataPoints: seq<Number> := [];
    ghost var kept: seq<Entry<JValue, JValue>> := [];
    var i := 0;
    while i < |items|
      invariant 0 <= i <= |items|
      invariant NoneThrows(items[..i])
      invariant kept == Kept(items[..i], JsonEntry)
      invariant labels == Labels(kept) && dataPoints == DataPoints(kept, parseFloat)
    {
      var item := items[i];
      KeptStep(items, i, JsonEntry);
      NoneThrowsStep(items, i);
      if item.JNull? {
        ThrowDecides(items, i, parseFloat);
        return Failed(TypeErrorThrown);
      }
      var itemLabel := Property(item, "label");
      var itemValue := Property(item, "value");
      if itemLabel.None? || itemValue.None? {
        i := i + 1;
        continue;
      }
      if ToStringThrows(itemValue.value) {
        assert Throws(items[i]);
        ThrowDecides(items, i, parseFloat);
        return Failed(TypeErrorThrown);
      }
      PushEntry(kept, Entry(itemLabel.value, itemValue.value), parseFloat);
      kept := kept + [Entry(itemLabel.value, itemValue.value)];
      labels := labels + [itemLabel.value];
      dataPoints := dataPoints + [parseFloat(itemValue.value)];
      i := i + 1;
    }
    assert items[..i] == items;
    NoThrowFinishes(items, parseFloat);
    if |labels| == 0 {
      return Failed(NoValidRows);
    }
    return Chart(ChartSeries(labels, dataPoints));
  }

  /** The error outcomes of the JSON path, each with its exact cause. */
  lemma JsonErrors(data: JValue, parseFloat: JValue -> Number)
    ensures JsonOutcome(data, parseFloat) == Failed(NotAnArray) <==> !data.JArray?
    ensures JsonOutcome(data, parseFloat) == Failed(TypeErrorThrown) <==>
      data.JArray? && SomeElementThrows(data.elems)
    ensures JsonOutcome(data, parseFloat) == Failed(NoValidRows) <==>
      data.JArray? && !SomeElementThrows(data.elems) &&
      forall j :: 0 <= j < |data.elems| ==> !HasLabelAndValue(data.elems[j])
    ensures JsonOutcome(data, parseFloat).Failed? ==>
      JsonOutcome(data, parseFloat).error in {NotAnArray, TypeErrorThrown, NoValidRows}
  {
    if data.JArray? {
      KeptEmpty(data.elems, JsonEntry);
      assert forall j :: 0 <= j < |data.elems| ==>
        (JsonEntry(data.elems[j]).None? <==> !HasLabelAndValue(data.elems[j]));
    }
  }

  /** A chart drawn from JSON holds one point per element that has both
      properties, in array order: `labels[k]` and `dataPoints[k]` come from
      the same element, and no such element is left out. */
  lemma JsonChartRows(items: seq<JValue>, parseFloat: JValue -> Number)
    requires JsonOutcome(JArray(items), parseFloat).Chart?
    ensures var s, idx := JsonOutcome(JArray(items), parseFloat).series, KeptIndices(items, JsonEntry);
      && (forall j :: 0 <= j < |items| ==> !Throws(items[j]))
      && 0 < |s.labels| == |s.dataPoints| == |idx| <= |items|
      && (forall j :: 0 <= j < |items| ==> (j in idx <==> HasLabelAndValue(items[j])))
      && (forall k, l :: 0 <= k < l < |idx| ==> idx[k] < idx[l])
      && (forall k :: 0 <= k < |idx| ==>
            && idx[k] < |items| && HasLabelAndValue(items[idx[k]])
            && s.labels[k] == items[idx[k]].fields["label"]
            && s.dataPoints[k] == parseFloat(items[idx[k]].fields["value"]))
  {
    KeptSpec(items, JsonEntry);
  }

  /** Worked cases: an element whose `label` is `null` and whose `value`
      is `0` is kept (only a missing property skips an element), while a
      `null` element, or a `value` with its own `toString` member, aborts
      the whole array, however valid the rest. */
  lemma JsonEdgeCases(parseFloat: JValue -> Number)
    ensures var a := JObject(map["label" := JNull, "value" := JNumber(0.0)]);
      JsonOutcome(JArray([a]), parseFloat) == Chart(ChartSeries([JNull], [parseFloat(JNumber(0.0))]))
    ensures var b := JObject(map["label" := JString("B"), "value" := JNumber(2.0)]);
      JsonOutcome(JArray([b, JNull]), parseFloat) == Failed(TypeErrorThrown)
    ensures var e := JObject(map["label" := JString("a"), "value" := JObject(map["toString" := JNumber(0.0)])]);
      JsonOutcome(JArray([e]), parseFloat) == Failed(TypeErrorThrown)
    ensures JsonOutcome(JArray([JString("label"), JObject(map["label" := JString("A")])]), parseFloat) == Failed(NoValidRows)
  {
    var a := JObject(map["label" := JNull, "value" := JNumber(0.0)]);
    assert JsonEntry(a) == Some(Entry(JNull, JNumber(0.0)));
    assert [a][..0] == [];
    assert Kept([a], JsonEntry) == [Entry(JNull, JNumber(0.0))];
    var b := JObject(map["label" := JString("B"), "value" := JNumber(2.0)]);
    assert Throws([b, JNull][1]);
    var e := JObject(map["label" := JString("a"), "value" := JObject(map["toString" := JNumber(0.0)])]);
    assert HasLabelAndValue(e) && ToStringThrows(e.fields["value"]);
    assert Throws([e][0]);
    var c := JString("label");
    var d := JObject(map["label" := JString("A")]);
    assert "value" !in d.fields;
    assert JsonEntry(c) == None && JsonEntry(d) == None;
    assert [c, d][..1] == [c] && [c][..0] == [];
    assert Kept([c, d], JsonEntry) == [];
  }
}
