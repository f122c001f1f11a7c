/**
 * The chart series that both extractors of app.js build: two parallel
 * arrays, `labels` and `dataPoints`, grown with `push` for every input row
 * that passes the extractor's check. Both extractors are a filter-map over
 * their rows; this module defines that filter-map once (`Kept`), together
 * with the indices of the rows it keeps (`KeptIndices`), and proves what it
 * means: exactly the accepted rows, in input order, one entry per row.
 */
module Series {

  datatype Option<+T> = None | Some(value: T)

  /** A JavaScript number as `parseFloat` can return it. Finite values are
      idealised as reals; the model never reasons about them. */
  datatype Number = Finite(value: real) | Infinity | NegativeInfinity | NaN

  /** What one accepted row contributes: the label pushed onto `labels` and
      the raw value whose coercion is pushed onto `dataPoints`. */
  datatype Entry<L, V> = Entry(chartLabel: L, raw: V)

  /** The two arrays handed to the chart. */
  datatype ChartSeries<L> = ChartSeries(labels: seq<L>, dataPoints: seq<Number>)

  /** Each way app.js gives up instead of drawing a chart. */
  datatype ChartError =
    | NotAnArray      // the parsed JSON is not an array
    | TypeErrorThrown // `parseJsonData` threw: `item.label` of a `null` element,
                      // or `parseFloat` of a value that cannot become a string
    | InvalidJson     // JSON.parse rejected the text
    | CsvParseError   // the CSV tokenizer reported at least one error
    | NoValidRows     // no row survived the per-row check

  datatype Outcome<L> = Chart(series: ChartSeries<L>) | Failed(error: ChartError)

  /** The entries of the rows that `entry` accepts, in input order. */
  function Kept<R, E>(rows: seq<R>, entry: R -> Option<E>): seq<E>
  {
    if |rows| == 0 then []
    else
      var init := Kept(rows[..|rows| - 1], entry);
      match entry(rows[|rows| - 1])
      case Some(e) => init + [e]
      case None => init
  }

  /** The positions of the rows that `entry` accepts, in input order. */
  ghost function KeptIndices<R, E>(rows: seq<R>, entry: R -> Option<E>): seq<nat>
  {
    if |rows| == 0 then []
    else
      var init := KeptIndices(rows[..|rows| - 1], entry);
      if entry(rows[|rows| - 1]).Some? then init + [|rows| - 1] else init
  }

  /** The labels of a sequence of entries, in order. */
  function Labels<L, V>(entries: seq<Entry<L, V>>): (labels: seq<L>)
    ensures |labels| == |entries|
    ensures forall k :: 0 <= k < |entries| ==> labels[k] == entries[k].chartLabel
  {
    if |entries| == 0 then []
    else Labels(entries[..|entries| - 1]) + [entries[|entries| - 1].chartLabel]
  }

  /** The coerced values of a sequence of entries, in order. */
  function DataPoints<L, V>(entries: seq<Entry<L, V>>, parseFloat: V -> Number): (points: seq<Number>)
    ensures |points| == |entries|
    ensures forall k :: 0 <= k < |entries| ==> points[k] == parseFloat(entries[k].raw)
  {
    if |entries| == 0 then []
    else DataPoints(entries[..|entries| - 1], parseFloat) + [parseFloat(entries[|entries| - 1].raw)]
  }

  /** The common tail of both extractors: no accepted row means no chart. */
  function Finish<L, V>(entries: seq<Entry<L, V>>, parseFloat: V -> Number): Outcome<L>
  {
    if |entries| == 0 then Failed(NoValidRows)
    else Chart(ChartSeries(Labels(entries), DataPoints(entries, parseFloat)))
  }

  /** Each kept entry comes from an accepted row at its recorded index. */
  lemma {:induction false} KeptFromIndices<R, E>(rows: seq<R>, entry: R -> Option<E>)
    ensures var kept, idx := Kept(rows, entry), KeptIndices(rows, entry);
      && |kept| == |idx| <= |rows|
      && (forall k :: 0 <= k < |idx| ==> idx[k] < |rows| && entry(rows[idx[k]]) == Some(kept[k]))
  {
    if |rows| != 0 {
      var n := |rows| - 1;
      KeptFromIndices(rows[..n], entry);
      assert forall j :: 0 <= j < n ==> rows[..n][j] == rows[j];
    }
  }

  /** The recorded indices increase strictly: entries keep input order. */
  lemma {:induction false} KeptIndicesIncrease<R, E>(rows: seq<R>, entry: R -> Option<E>)
    ensures var idx := KeptIndices(rows, entry);
      && (forall k :: 0 <= k < |idx| ==> idx[k] < |rows|)
      && (forall k, l :: 0 <= k < l < |idx| ==> idx[k] < idx[l])
  {
    if |rows| != 0 {
      var n := |rows| - 1;
      var idx0 := KeptIndices(rows[..n], entry);
      KeptIndicesIncrease(rows[..n], entry);
      assert var i0 := KeptIndices(rows[..n], entry); forall k :: 0 <= k < |i0| ==> i0[k] < |rows[..n]|;
      if entry(rows[n]).Some? {
        var idx := idx0 + [n];
        assert KeptIndices(rows, entry) == idx;
        forall k, l | 0 <= k < l < |idx|
          ensures idx[k] < idx[l]
        {
          assert idx[k] == idx0[k];
          if l < |idx0| {
            assert idx[l] == idx0[l];
          }
        }
      } else {
        assert KeptIndices(rows, entry) == idx0;
      }
    }
  }

  /** Every accepted row, and no other, has its index recorded. */
  lemma {:induction false} KeptIndicesExact<R, E>(rows: seq<R>, entry: R -> Option<E>)
    ensures var idx := KeptIndices(rows, entry);
      forall j :: 0 <= j < |rows| ==> (j in idx <==> entry(rows[j]).Some?)
  {
    if |rows| != 0 {
      var n := |rows| - 1;
      KeptIndicesExact(rows[..n], entry);
      KeptIndicesIncrease(rows[..n], entry);
      assert forall j :: 0 <= j < n ==> rows[..n][j] == rows[j];
    }
  }

  /** `Kept` is exactly the filter-map it is meant to be: one entry per
      accepted row, taken from that row, in strictly increasing row order,
      and every accepted row is represented. */
  lemma {:induction false} KeptSpec<R, E>(rows: seq<R>, entry: R -> Option<E>)
    ensures var kept, idx := Kept(rows, entry), KeptIndices(rows, entry);
      && |kept| == |idx| <= |rows|
      && (forall k :: 0 <= k < |idx| ==> idx[k] < |rows| && entry(rows[idx[k]]) == Some(kept[k]))
      && (forall k, l :: 0 <= k < l < |idx| ==> idx[k] < idx[l])
      && (forall j :: 0 <= j < |rows| ==> (j in idx <==> entry(rows[j]).Some?))
  {
    KeptFromIndices(rows, entry);
    KeptIndicesIncrease(rows, entry);
    KeptIndicesExact(rows, entry);
  }

  /** Nothing is kept exactly when no row is accepted. */
  lemma {:induction false} KeptEmpty<R, E>(rows: seq<R>, entry: R -> Option<E>)
    ensures |Kept(rows, entry)| == 0 <==> forall j :: 0 <= j < |rows| ==> entry(rows[j]).None?
  {
    KeptSpec(rows, entry);
    var idx := KeptIndices(rows, entry);
    if |idx| != 0 {
      assert entry(rows[idx[0]]).Some?;
    }
  }

  /** Rows that every position accepts in the same way give the same entries:
      `Kept` looks at nothing but what `entry` extracts. */
  lemma {:induction false} KeptCongruent<R, S, E>(rows: seq<R>, entry: R -> Option<E>, rows': seq<S>, entry': S -> Option<E>)
    requires |rows| == |rows'|
    requires forall j :: 0 <= j < |rows| ==> entry(rows[j]) == entry'(rows'[j])
    ensures Kept(rows, entry) == Kept(rows', entry')
  {
    if |rows| != 0 {
      var n := |rows| - 1;
      assert forall j :: 0 <= j < n ==> rows[..n][j] == rows[j] && rows'[..n][j] == rows'[j];
      KeptCongruent(rows[..n], entry, rows'[..n], entry');
    }
  }

  /** One more row processed: the step each extractor loop takes. */
  lemma KeptStep<R, E>(rows: seq<R>, i: nat, entry: R -> Option<E>)
    requires i < |rows|
    ensures Kept(rows[..i + 1], entry) ==
      match entry(rows[i])
      case Some(e) => Kept(rows[..i], entry) + [e]
      case None => Kept(rows[..i], entry)
  {
    assert rows[..i + 1][..i] == rows[..i];
  }

  /** Both arrays grow together: pushing one entry appends its label and
      its coerced value. */
  lemma PushEntry<L, V>(entries: seq<Entry<L, V>>, e: Entry<L, V>, parseFloat: V -> Number)
    ensures Labels(entries + [e]) == Labels(entries) + [e.chartLabel]
    ensures DataPoints(entries + [e], parseFloat) == DataPoints(entries, parseFloat) + [parseFloat(e.raw)]
  {
    assert (entries + [e])[..|entries|] == entries;
  }

  /** One iteration of an extractor loop: with `labels` and `dataPoints`
      holding the series of the first `i` rows, row `i` leaves them alone
      when it is rejected and appends its label and coerced value when it
      is accepted, giving the series of the first `i + 1` rows. */
  lemma SeriesStep<R, L, V>(rows: seq<R>, i: nat, entry: R -> Option<Entry<L, V>>, parseFloat: V -> Number,
                            labels: seq<L>, dataPoints: seq<Number>)
    requires i < |rows|
    requires labels == Labels(Kept(rows[..i], entry))
    requires dataPoints == DataPoints(Kept(rows[..i], entry), parseFloat)
    ensures entry(rows[i]).None? ==>
      labels == Labels(Kept(rows[..i + 1], entry)) && dataPoints == DataPoints(Kept(rows[..i + 1], entry), parseFloat)
    ensures entry(rows[i]).Some? ==>
      && labels + [entry(rows[i]).value.chartLabel] == Labels(Kept(rows[..i + 1], entry))
      && dataPoints + [parseFloat(entry(rows[i]).value.raw)] == DataPoints(Kept(rows[..i + 1], entry), parseFloat)
  {
    KeptStep(rows, i, entry);
    if entry(rows[i]).Some? {
      PushEntry(Kept(rows[..i], entry), entry(rows[i]).value, parseFloat);
    }
  }
}
