/** The dashboard's statistics card (src/components/dashboard/StatsOverview.tsx):
    the table counts, the download total, the average per offer and the
    engagement rate. Numbers are exact integers and reals here. */
module StatsOverview {
  import opened Wrappers
  import JsText
  import Arith

  /** `offer.download_count || 0` summed over the rows. */
  function SumDownloads(counts: seq<Option<int>>): int {
    if counts == [] then 0 else counts[0].GetOr(0) + SumDownloads(counts[1..])
  }

  /** `downloadsResult.data?.reduce(...) || 0`: 0 without data. */
  function TotalDownloads(data: Option<seq<Option<int>>>): (n: int)
    ensures data.None? ==> n == 0
  {
    if data.None? then 0 else SumDownloads(data.value)
  }

  /** The sum of two row lists read one after the other is the sum of the two. */
  lemma {:induction false} SumAppend(a: seq<Option<int>>, b: seq<Option<int>>)
    ensures SumDownloads(a + b) == SumDownloads(a) + SumDownloads(b)
  {
    if a == [] {
      assert a + b == b;
    } else {
      assert (a + b)[1..] == a[1..] + b;
      SumAppend(a[1..], b);
    }
  }

  /** A null count weighs exactly as a zero: reading every null as 0 gives
      the same total. */
  lemma {:induction false} NullCountsAsZero(counts: seq<Option<int>>)
    ensures SumDownloads(counts) == SumDownloads(seq(|counts|, i requires 0 <= i < |counts| => Some(counts[i].GetOr(0))))
  {
    var zeroed := seq(|counts|, i requires 0 <= i < |counts| => Some(counts[i].GetOr(0)));
    if counts != [] {
      NullCountsAsZero(counts[1..]);
      assert zeroed[1..] == seq(|counts[1..]|, i requires 0 <= i < |counts[1..]| => Some(counts[1..][i].GetOr(0)));
    }
  }

  /** Non-negative counts give a non-negative total, at least each count. */
  lemma {:induction false} SumBounds(counts: seq<Option<int>>, k: int)
    requires forall i | 0 <= i < |counts| :: counts[i].GetOr(0) >= 0
    requires 0 <= k < |counts|
    ensures SumDownloads(counts) >= counts[k].GetOr(0) >= 0
  {
    SumNonNegative(counts[1..]);
    if k > 0 {
      SumBounds(counts[1..], k - 1);
    }
  }

  lemma {:induction false} SumNonNegative(counts: seq<Option<int>>)
    requires forall i | 0 <= i < |counts| :: counts[i].GetOr(0) >= 0
    ensures SumDownloads(counts) >= 0
  {
    if counts != [] {
      SumNonNegative(counts[1..]);
    }
  }

  /** `count || 0` for the three exact counts. */
  function CountOrZero(count: Option<int>): (n: int)
    ensures count.None? ==> n == 0
    ensures count.Some? ==> n == count.value
  {
    if count.None? || count.value == 0 then 0 else count.value
  }

  /** `Math.round`: the nearest integer, halves rounded up. */
  function Round(x: real): (n: int)
    ensures n as real - 0.5 <= x < n as real + 0.5
  {
    (x + 0.5).Floor
  }

  /** The per-offer average: rounded when there are offers, else 0. */
  function Average(total: int, offers: int): int {
    if offers > 0 then Round(total as real / offers as real) else 0
  }

  /** An integer quotient is the floor of the real one. */
  lemma FloorOfQuotient(a: int, b: int)
    requires b > 0
    ensures (a as real / b as real).Floor == a / b
  {
    var q, r := a / b, a % b;
    assert a == q * b + r && 0 <= r < b;
    assert a as real / b as real == q as real + r as real / b as real;
    assert 0.0 <= r as real / b as real < 1.0;
  }

  /** With offers, the rounded average is an integer division:
      round(t / o) == (2t + o) div 2o. */
  lemma AverageIsDivision(total: int, offers: int)
    requires offers > 0
    ensures Average(total, offers) == (2 * total + offers) / (2 * offers)
  {
    var o := offers as real;
    var x := total as real / o;
    var y := (2 * total + offers) as real / (2.0 * o);
    assert x * o == total as real;
    assert y * (2.0 * o) == (2 * total + offers) as real;
    assert (x + 0.5) * (2.0 * o) == 2.0 * (x * o) + o;
    assert 2.0 * (x * o) + o == (2 * total + offers) as real;
    Arith.RealCancel(x + 0.5, y, 2.0 * o);
    assert (2 * offers) as real == 2.0 * o;
    FloorOfQuotient(2 * total + offers, 2 * offers);
  }

  /** An integer in decimal, with a minus sign when negative. */
  function IntText(n: int): string {
    if n < 0 then "-" + JsText.DecimalString(-n) else JsText.DecimalString(n)
  }

  /** The engagement rate: downloads per user as a rounded percentage, or
      "0%" without users. */
  function Engagement(total: int, users: int): (text: string)
    ensures |text| >= 2 && text[|text| - 1] == '%'
  {
    if users > 0 then IntText(Round(total as real / users as real * 100.0)) + "%" else "0%"
  }

  /** The engagement rate reads "0%" without users, and otherwise is 100
      times the downloads per user, rounded, followed by '%'. */
  lemma EngagementIsAverage(total: int, users: int)
    ensures users <= 0 ==> Engagement(total, users) == "0%"
    ensures users > 0 ==> Engagement(total, users) == IntText(Average(100 * total, users)) + "%"
  {
    if users > 0 {
      var u := users as real;
      var x := total as real / u * 100.0;
      var y := (100 * total) as real / u;
      assert (total as real / u) * u == total as real;
      assert x * u == (total as real / u) * u * 100.0;
      assert y * u == (100 * total) as real;
      Arith.RealCancel(x, y, u);
      assert Engagement(total, users) == IntText(Round(x)) + "%";
      assert Average(100 * total, users) == Round(y);
    }
  }

  /** The figures the card shows. */
  datatype Stats = Stats(users: int, offers: int, announcements: int, downloads: int, average: int, engagement: string)

  function Overview(users: Option<int>, offers: Option<int>, announcements: Option<int>,
                    downloadCounts: Option<seq<Option<int>>>): Stats {
    var u, o := CountOrZero(users), CountOrZero(offers);
    var t := TotalDownloads(downloadCounts);
    Stats(u, o, CountOrZero(announcements), t, Average(t, o), Engagement(t, u))
  }

  /** With no offer the average is 0; with no user the rate is "0%". */
  lemma EmptyTablesShowZero(users: Option<int>, offers: Option<int>, announcements: Option<int>,
                            downloadCounts: Option<seq<Option<int>>>)
    requires users.None? || users.value <= 0
    requires offers.None? || offers.value <= 0
    ensures Overview(users, offers, announcements, downloadCounts).average == 0
    ensures Overview(users, offers, announcements, downloadCounts).engagement == "0%"
  {
  }
}
