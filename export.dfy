// The export loop of `main` (src/main.rs:98-106): one CSV record per metric,
// holding only the metric's id, and a running count of the records.
//
// The CSV writer stands for an ordered sequence of serialized records; the
// `csv` crate's header line, quoting and file handling are not modelled.

module Export {

  /** One element of the response's `data` array. */
  datatype Metric = Metric(metricType: string, id: string)

  /** The ids of `data`, in order: the records the writer receives. */
  function Ids(data: seq<Metric>): (ids: seq<string>)
    ensures |ids| == |data|
    ensures forall i :: 0 <= i < |data| ==> ids[i] == data[i].id
  {
    if data == [] then [] else [data[0].id] + Ids(data[1..])
  }

  /** The export loop: for each metric, in order, add one to the count and
      hand its id to the writer; `rows` are the records the writer got. */
  method ExportMetrics(data: seq<Metric>) returns (metricCount: nat, rows: seq<string>)
    ensures metricCount == |data|
    ensures rows == Ids(data)
  {
    metricCount := 0;
    rows := [];
    var i := 0;
    while i < |data|
      invariant 0 <= i <= |data|
      invariant metricCount == i
      invariant rows == Ids(data[..i])
    {
      var metric := data[i];
      metricCount := metricCount + 1;
      rows := rows + [metric.id];
      i := i + 1;
    }
    assert data[..i] == data;
  }

  /** The records of a concatenation are the records of each part in turn. */
  lemma {:induction false} IdsAppend(a: seq<Metric>, b: seq<Metric>)
    ensures Ids(a + b) == Ids(a) + Ids(b)
  {
    if a != [] {
      IdsAppend(a[1..], b);
      assert (a + b)[1..] == a[1..] + b;
    }
  }

  /** The metric type is never written: data that agree on their ids produce
      the same records, whatever their types. */
  lemma ExportIgnoresMetricType(data1: seq<Metric>, data2: seq<Metric>)
    requires |data1| == |data2|
    requires forall i :: 0 <= i < |data1| ==> data1[i].id == data2[i].id
    ensures Ids(data1) == Ids(data2)
  {
  }

  /** The two-metric and the empty responses. */
  lemma ExportExamples()
    ensures Ids([Metric("count", "my.metric.one"), Metric("gauge", "my.metric.two")])
      == ["my.metric.one", "my.metric.two"]
    ensures Ids([]) == []
  {
  }
}
