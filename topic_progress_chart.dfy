/** The per-subject bar chart of the faculty view
    (src/components/TopicProgressChart.tsx): distinct subjects in first-occurrence
    order, per-subject counts and percentages, and the two stacked series. */
module TopicProgressChart {
  import opened Types
  import Aggregates

  predicate NoDuplicates(xs: seq<string>)
  {
    forall i, j :: 0 <= i < j < |xs| ==> xs[i] != xs[j]
  }

  /** The position of the first occurrence of `x` in `xs`. */
  function FirstIndex(xs: seq<string>, x: string): (k: nat)
    requires x in xs
    ensures k < |xs| && xs[k] == x
    ensures forall j :: 0 <= j < k ==> xs[j] != x
  {
    if xs[0] == x then 0
    else
      var k := 1 + FirstIndex(xs[1..], x);
      assert forall j :: 1 <= j < k ==> xs[j] == xs[1..][j - 1];
      k
  }

  /** Extending a list does not move the first occurrence of what it already holds. */
  lemma FirstIndexPrefix(xs: seq<string>, n: nat, x: string)
    requires n <= |xs| && x in xs[..n]
    ensures FirstIndex(xs, x) == FirstIndex(xs[..n], x)
  {
    var k, kp := FirstIndex(xs, x), FirstIndex(xs[..n], x);
    assert xs[..n][kp] == xs[kp];
  }

  /** `[...new Set(xs)]`: each distinct value once, ordered by first occurrence. */
  function Dedup(xs: seq<string>): (r: seq<string>)
    ensures NoDuplicates(r)
    ensures forall x :: x in r <==> x in xs
    ensures forall i, j :: 0 <= i < j < |r| ==> FirstIndex(xs, r[i]) < FirstIndex(xs, r[j])
  {
    if xs == [] then []
    else
      var n := |xs| - 1;
      var init := Dedup(xs[..n]);
      var x := xs[n];
      assert xs == xs[..n] + [x];
      assert forall y :: y in init ==> FirstIndex(xs, y) == FirstIndex(xs[..n], y) by {
        forall y | y in init ensures FirstIndex(xs, y) == FirstIndex(xs[..n], y) {
          FirstIndexPrefix(xs, n, y);
        }
      }
      if x in init then init
      else
        assert FirstIndex(xs, x) == n;
        init + [x]
  }

  /** The subject of every topic, in list order. */
  function SubjectColumn(ts: seq<Topic>): (r: seq<string>)
    ensures |r| == |ts| && forall i :: 0 <= i < |ts| ==> r[i] == ts[i].subject
  {
    seq(|ts|, i requires 0 <= i < |ts| => ts[i].subject)
  }

  /** `subjects`: the distinct subjects of the topics, each once, ordered by the
      first topic that carries it. */
  function Subjects(ts: seq<Topic>): (r: seq<string>)
    ensures NoDuplicates(r)
    ensures forall x :: x in r <==> exists k :: 0 <= k < |ts| && ts[k].subject == x
    ensures forall x :: x in r <==> x in SubjectColumn(ts)
    ensures forall i, j :: 0 <= i < j < |r| ==>
      FirstIndex(SubjectColumn(ts), r[i]) < FirstIndex(SubjectColumn(ts), r[j])
  {
    var column := SubjectColumn(ts);
    assert forall x :: x in column <==> exists k :: 0 <= k < |ts| && ts[k].subject == x by {
      forall x ensures x in column <==> exists k :: 0 <= k < |ts| && ts[k].subject == x {
        if x in column {
          var k :| 0 <= k < |column| && column[k] == x;
          assert ts[k].subject == x;
        }
      }
    }
    Dedup(SubjectColumn(ts))
  }

  /** `subjectTopics.length`. */
  function SubjectTotal(ts: seq<Topic>, s: string): (n: nat)
    ensures n <= |ts|
    ensures n > 0 <==> exists i :: 0 <= i < |ts| && ts[i].subject == s
  {
    if ts == [] then 0
    else
      var rest := SubjectTotal(ts[1..], s);
      assert forall i :: 1 <= i < |ts| ==> ts[i] == ts[1..][i - 1];
      assert rest > 0 ==> exists i :: 0 <= i < |ts| && ts[i].subject == s by {
        if rest > 0 {
          var i :| 0 <= i < |ts[1..]| && ts[1..][i].subject == s;
          assert ts[i + 1].subject == s;
        }
      }
      (if ts[0].subject == s then 1 else 0) + rest
  }

  /** `subjectTopics.filter(topic => topic.isCompleted).length`. */
  function SubjectCompleted(ts: seq<Topic>, s: string): (n: nat)
    ensures n <= SubjectTotal(ts, s)
    ensures n > 0 <==> exists i :: 0 <= i < |ts| && ts[i].subject == s && ts[i].isCompleted
  {
    if ts == [] then 0
    else
      var rest := SubjectCompleted(ts[1..], s);
      assert forall i :: 1 <= i < |ts| ==> ts[i] == ts[1..][i - 1];
      assert rest > 0 ==> exists i :: 0 <= i < |ts| && ts[i].subject == s && ts[i].isCompleted by {
        if rest > 0 {
          var i :| 0 <= i < |ts[1..]| && ts[1..][i].subject == s && ts[1..][i].isCompleted;
          assert ts[i + 1] == ts[1..][i];
        }
      }
      (if ts[0].subject == s && ts[0].isCompleted then 1 else 0) + rest
  }

  /** Both counts add up piece by piece. With the one-topic cases fixed by the
      two counts' own contracts, this pins them down as the number of the
      subject's topics and of its completed topics. */
  lemma {:induction false} SubjectCountsAppend(a: seq<Topic>, b: seq<Topic>, s: string)
    ensures SubjectTotal(a + b, s) == SubjectTotal(a, s) + SubjectTotal(b, s)
    ensures SubjectCompleted(a + b, s) == SubjectCompleted(a, s) + SubjectCompleted(b, s)
  {
    if a == [] {
      assert a + b == b;
    } else {
      assert (a + b)[1..] == a[1..] + b;
      SubjectCountsAppend(a[1..], b, s);
    }
  }

  /** One element of `chartData`. */
  datatype ChartRow = ChartRow(subject: string, total: nat, completed: nat, percentage: int)

  /** A subject's row; the percentage is guarded by `total > 0`. */
  function RowFor(ts: seq<Topic>, s: string): (row: ChartRow)
    ensures row.subject == s
    ensures row.total == SubjectTotal(ts, s) && row.completed == SubjectCompleted(ts, s)
    ensures row.completed <= row.total
    ensures 0 <= row.percentage <= 100
    ensures row.total == 0 ==> row.percentage == 0
    ensures row.total > 0 ==> row.percentage == Aggregates.RoundPercent(row.completed, row.total)
  {
    var total, completed := SubjectTotal(ts, s), SubjectCompleted(ts, s);
    if total > 0 then
      Aggregates.PercentInRange(completed, total);
      ChartRow(s, total, completed, Aggregates.RoundPercent(completed, total))
    else
      ChartRow(s, total, completed, 0)
  }

  /** `chartData`: one row per distinct subject, in the same order; every subject
      comes from some topic, so no row has a zero total. */
  function ChartData(ts: seq<Topic>): (rows: seq<ChartRow>)
    ensures |rows| == |Subjects(ts)|
    ensures forall i :: 0 <= i < |rows| ==> rows[i] == RowFor(ts, Subjects(ts)[i])
    ensures forall i :: 0 <= i < |rows| ==> rows[i].total > 0
  {
    var subjects := Subjects(ts);
    assert forall i :: 0 <= i < |subjects| ==> SubjectTotal(ts, subjects[i]) > 0 by {
      forall i | 0 <= i < |subjects| ensures SubjectTotal(ts, subjects[i]) > 0 {
        var k := FirstIndex(SubjectColumn(ts), subjects[i]);
        assert ts[k].subject == subjects[i];
      }
    }
    seq(|subjects|, i requires 0 <= i < |subjects| => RowFor(ts, subjects[i]))
  }

  /** What the component renders: a message for an empty list, otherwise a bar
      chart with labels, a Completed series, a Remaining series and the tooltip
      percentages. */
  datatype ChartView =
    | NoTopicsMessage
    | BarChart(labels: seq<string>, completed: seq<int>, remaining: seq<int>, tooltip: seq<int>)

  function TopicChart(ts: seq<Topic>): (v: ChartView)
    ensures v.NoTopicsMessage? <==> ts == []
    ensures v.BarChart? ==>
      && v.labels == Subjects(ts)
      && |v.completed| == |v.labels| && |v.remaining| == |v.labels| && |v.tooltip| == |v.labels|
      && (forall i :: 0 <= i < |v.labels| ==>
            && v.completed[i] == SubjectCompleted(ts, v.labels[i])
            && 0 <= v.remaining[i]
            && v.completed[i] + v.remaining[i] == SubjectTotal(ts, v.labels[i]) > 0
            && v.tooltip[i] == Aggregates.RoundPercent(v.completed[i], v.completed[i] + v.remaining[i])
            && 0 <= v.tooltip[i] <= 100)
  {
    if ts == [] then NoTopicsMessage
    else
      var rows := ChartData(ts);
      BarChart(
        seq(|rows|, i requires 0 <= i < |rows| => rows[i].subject),
        seq(|rows|, i requires 0 <= i < |rows| => rows[i].completed as int),
        seq(|rows|, i requires 0 <= i < |rows| => rows[i].total - rows[i].completed),
        seq(|rows|, i requires 0 <= i < |rows| => rows[i].percentage))
  }

  /** Every topic's subject gets exactly one bar. */
  lemma EveryTopicHasOneBar(ts: seq<Topic>, k: nat)
    requires k < |ts|
    ensures var subjects := Subjects(ts);
      exists i :: 0 <= i < |subjects| && subjects[i] == ts[k].subject
        && (forall j :: 0 <= j < |subjects| && j != i ==> subjects[j] != ts[k].subject)
  {
    var subjects := Subjects(ts);
    assert SubjectColumn(ts)[k] == ts[k].subject;
    assert ts[k].subject in subjects;
  }
}
