/** The overview card of a single link's detail page
    (`app/components/organisms/AnalyticsOverview.tsx`). */
module AnalyticsOverview {
  import opened Common

  datatype DailyClick = DailyClick(date: string, clicks: int)

  /** "Rata-rata per Hari": `Math.round(total_clicks / daily_clicks.length)`
      when the daily series is present and non-empty, 0 otherwise. */
  function AveragePerDay(totalClicks: int, dailyClicks: Option<seq<DailyClick>>): (r: int)
    ensures dailyClicks.None? ==> r == 0
    ensures dailyClicks.Some? && dailyClicks.value == [] ==> r == 0
    ensures dailyClicks.Some? && dailyClicks.value != [] ==>
              var n := |dailyClicks.value|;
              2 * n * r <= 2 * totalClicks + n < 2 * n * r + 2 * n
  {
    if dailyClicks.Some? && |dailyClicks.value| > 0
    then RoundQuotient(totalClicks, |dailyClicks.value|)
    else 0
  }

  /** With a non-negative total the average lies between 0 and the total. */
  lemma AveragePerDayBounds(totalClicks: int, dailyClicks: Option<seq<DailyClick>>)
    requires totalClicks >= 0
    ensures 0 <= AveragePerDay(totalClicks, dailyClicks) <= totalClicks
  {
    if dailyClicks.Some? && |dailyClicks.value| > 0 {
      RoundQuotientBounds(totalClicks, |dailyClicks.value|);
    }
  }
}
