/** The analytics page: the average mastery over all subjects and the
    weekly activity chart, one bar per day. */
module Analytics {
  import opened Common

  /** `item.percentage || 0`: a missing (or zero) percentage counts as 0.
      Percentages are numbers and may be fractional. */
  function PercentOf(p: Option<real>): real
  {
    if p.Some? then p.value else 0.0
  }

  function Total(mastery: seq<Option<real>>): real
  {
    if mastery == [] then 0.0 else Total(mastery[..|mastery| - 1]) + PercentOf(mastery[|mastery| - 1])
  }

  /** `getMasteryAverage`: 0 without subjects, otherwise the mean of the
      percentages rounded to the nearest whole number, halves up. */
  function MasteryAverage(mastery: seq<Option<real>>): (r: int)
    ensures mastery == [] ==> r == 0
    ensures mastery != [] ==> var mean := Total(mastery) / |mastery| as real;
      r as real - 0.5 <= mean < r as real + 0.5
  {
    if mastery == [] then 0 else RoundHalfUp(Total(mastery) / |mastery| as real)
  }

  predicate IsPercent(p: Option<real>)
  {
    p.None? || 0.0 <= p.value <= 100.0
  }

  /** The total of `n` percentages lies between 0 and 100 times `n`. */
  lemma {:induction false} TotalBounds(mastery: seq<Option<real>>)
    requires forall i :: 0 <= i < |mastery| ==> IsPercent(mastery[i])
    ensures 0.0 <= Total(mastery) <= 100.0 * |mastery| as real
    decreases |mastery|
  {
    if mastery != [] {
      TotalBounds(mastery[..|mastery| - 1]);
    }
  }

  /** Dividing bounds on a total by a positive count bounds the mean. */
  lemma MeanBounds(t: real, n: real, lo: real, hi: real)
    requires n > 0.0 && lo * n <= t <= hi * n
    ensures lo <= t / n <= hi
  {
    assert (t / n) * n == t;
  }

  /** So the average of percentages is itself a percentage. */
  lemma AverageIsPercent(mastery: seq<Option<real>>)
    requires forall i :: 0 <= i < |mastery| ==> IsPercent(mastery[i])
    ensures 0 <= MasteryAverage(mastery) <= 100
  {
    if mastery != [] {
      TotalBounds(mastery);
      MeanBounds(Total(mastery), |mastery| as real, 0.0, 100.0);
    }
  }

  /** Every subject at the same percentage averages to that percentage,
      rounded. */
  lemma {:induction false} UniformAverage(mastery: seq<Option<real>>, p: real)
    requires mastery != [] && forall i :: 0 <= i < |mastery| ==> mastery[i] == Some(p)
    ensures MasteryAverage(mastery) == RoundHalfUp(p)
  {
    UniformTotal(mastery, p);
    assert Total(mastery) / |mastery| as real == p;
  }

  lemma {:induction false} UniformTotal(mastery: seq<Option<real>>, p: real)
    requires forall i :: 0 <= i < |mastery| ==> mastery[i] == Some(p)
    ensures Total(mastery) == p * |mastery| as real
    decreases |mastery|
  {
    if mastery != [] {
      UniformTotal(mastery[..|mastery| - 1], p);
    }
  }

  /* ---------------------------------------------------------------- */
  /* The weekly chart                                                  */
  /* ---------------------------------------------------------------- */

  datatype Activity = Activity(date: string, count: int)

  datatype Bar = Bar(date: string, count: int, height: int, color: string)

  const Colors: seq<string> := ["#0f766e", "#2563eb", "#f59e0b", "#10b981", "#8b5cf6"]

  function Min(a: int, b: int): int { if a <= b then a else b }

  function Max(a: int, b: int): int { if a >= b then a else b }

  /** One bar per day, in order: twenty pixels per test up to a hundred,
      coloured by position through the five colours. */
  function WeeklyBars(activity: seq<Activity>): (r: seq<Bar>)
    ensures |r| == |activity|
    ensures forall i :: 0 <= i < |r| ==> r[i].date == activity[i].date && r[i].count == activity[i].count
    ensures forall i :: 0 <= i < |r| ==> r[i].height <= 100 && (activity[i].count <= 5 ==> r[i].height == 20 * activity[i].count)
    ensures forall i :: 0 <= i < |r| ==> (activity[i].count > 5 ==> r[i].height == 100)
    ensures forall i :: 0 <= i < |r| ==> r[i].color == Colors[i % |Colors|]
  {
    seq(|activity|, i requires 0 <= i < |activity| =>
      Bar(activity[i].date, activity[i].count, Min(100, activity[i].count * 20), Colors[i % |Colors|]))
  }

  /** The height drawn: at least ten pixels, so an empty day still shows. */
  function DrawnHeight(b: Bar): (r: int)
    ensures r >= 10 && r >= b.height
    ensures b.height >= 10 ==> r == b.height
  {
    Max(10, b.height)
  }

  /** Every drawn bar is between ten and a hundred pixels tall, and more
      tests never draw a shorter bar. */
  lemma DrawnHeightBounds(activity: seq<Activity>, i: nat, j: nat)
    requires i < |activity| && j < |activity| && activity[i].count <= activity[j].count
    ensures var bars := WeeklyBars(activity);
      10 <= DrawnHeight(bars[i]) <= 100 && DrawnHeight(bars[i]) <= DrawnHeight(bars[j])
  {
  }

  /** The colours repeat every five bars and neighbours differ. */
  lemma ColorsCycle(activity: seq<Activity>, i: nat)
    requires i + 1 < |activity|
    ensures var bars := WeeklyBars(activity);
      (i + 5 < |activity| ==> bars[i + 5].color == bars[i].color) && bars[i + 1].color != bars[i].color
  {
    assert (i + 5) % 5 == i % 5;
    assert (i + 1) % 5 != i % 5;
  }
}
