/** The analytics page (`app/analytics/page.tsx`): month labels, the
    link-filter query suffix, the summary cards, the chart scale and
    ticks, the chronological order of the monthly chart, and the
    truncation rules of the two tables. Fetching the data is not part of
    this module; its response is taken as given. */
module Analytics {
  import opened Common
  import opened JsNumbers
  import Lists

  /** One row of `urlStats`. */
  datatype UrlStat = UrlStat(
    id: int, shortCode: string, originalUrl: string, shortUrl: string,
    clickCount: int, createdAt: string)

  /** One bucket of `monthlyClicks`; the month arrives as a string. */
  datatype MonthBucket = MonthBucket(month: string, clicks: int)

  /** One row of `clickDetails`. */
  datatype ClickDetail = ClickDetail(
    id: int, urlId: int, ipAddress: string, userAgent: string,
    referer: string, clickedAt: string)

  // ---------------------------------------------------------------------
  // formatMonth
  // ---------------------------------------------------------------------

  const MonthNames: seq<string> :=
    ["Jan", "Feb", "Mar", "Apr", "Mei", "Jun", "Jul", "Agu", "Sep", "Okt", "Nov", "Des"]

  /** `formatMonth`: the Indonesian short name of a month given as a
      string "1".."12", and the string itself for anything else. */
  function FormatMonth(monthString: string): (r: string)
    ensures r == monthString || r in MonthNames
    ensures (ParseInt(monthString).Some? && 1 <= ParseInt(monthString).value <= 12) ==>
              r == MonthNames[ParseInt(monthString).value - 1]
    ensures !(ParseInt(monthString).Some? && 1 <= ParseInt(monthString).value <= 12) ==>
              r == monthString
  {
    var index := ParseInt(monthString);
    // monthNames[NaN] and monthNames[-1], monthNames[12].. are undefined,
    // and every name is truthy, so `|| monthString` only picks up those.
    if index.Some? && 0 <= index.value - 1 < 12 then MonthNames[index.value - 1]
    else monthString
  }

  /** The month written in decimal gets its name: "1" is "Jan", ...,
      "12" is "Des". */
  lemma FormatMonthOfNumber(k: nat)
    requires 1 <= k <= 12
    ensures FormatMonth(NatToString(k)) == MonthNames[k - 1]
  {
    assert NatToString(k) + [] == NatToString(k);
    ParseIntOfDecimal(k, []);
  }

  /** Numbers outside 1..12 are shown unchanged. */
  lemma FormatMonthOutOfRange(k: nat)
    requires k == 0 || k > 12
    ensures FormatMonth(NatToString(k)) == NatToString(k)
  {
    assert NatToString(k) + [] == NatToString(k);
    ParseIntOfDecimal(k, []);
  }

  // ---------------------------------------------------------------------
  // The URL filter of the analytics request
  // ---------------------------------------------------------------------

  const FilterPrefix: string := "?url="

  /** The query suffix appended to `/api/analytics`: empty for a missing,
      empty or "all" filter, otherwise `?url=` and the short code. */
  function FilterParam(urlFilter: Option<string>): (r: string)
    ensures r == [] <==> urlFilter.None? || urlFilter.value == [] || urlFilter.value == "all"
    ensures r != [] ==> r == FilterPrefix + urlFilter.value
  {
    if urlFilter.Some? && urlFilter.value != [] && urlFilter.value != "all"
    then FilterPrefix + urlFilter.value
    else []
  }

  /** Which links a query suffix asks for: "all" for no suffix, otherwise
      the short code after `?url=`. */
  function RequestedCode(param: string): string
  {
    if |param| >= |FilterPrefix| && param[..|FilterPrefix|] == FilterPrefix
    then param[|FilterPrefix|..]
    else "all"
  }

  /** The selected filter can be read back from the suffix: the backend is
      asked for exactly the selected short code, or for every link when no
      specific link is selected. */
  lemma FilterParamRoundTrip(urlFilter: Option<string>)
    ensures RequestedCode(FilterParam(urlFilter)) ==
            if urlFilter.Some? && urlFilter.value != [] then urlFilter.value else "all"
  {
    var p := FilterParam(urlFilter);
    if p != [] {
      assert p[..|FilterPrefix|] == FilterPrefix;
      assert p[|FilterPrefix|..] == urlFilter.value;
    }
  }

  // ---------------------------------------------------------------------
  // Summary cards
  // ---------------------------------------------------------------------

  /** "Rata-rata Klik/Link": `Math.round(totalClicks / n)` for `n > 0`
      links, and 0 without links. */
  function AverageClicksPerLink(totalClicks: int, linkCount: nat): (r: int)
    ensures linkCount == 0 ==> r == 0
    ensures linkCount > 0 ==>
              2 * linkCount * r <= 2 * totalClicks + linkCount < 2 * linkCount * r + 2 * linkCount
    ensures totalClicks >= 0 ==> 0 <= r <= totalClicks
  {
    if linkCount > 0 then
      assert totalClicks >= 0 ==> 0 <= RoundQuotient(totalClicks, linkCount) <= totalClicks by {
        if totalClicks >= 0 {
          RoundQuotientBounds(totalClicks, linkCount);
        }
      }
      RoundQuotient(totalClicks, linkCount)
    else 0
  }

  predicate IsActive(u: UrlStat)
  {
    u.clickCount > 0
  }

  /** `urlStats.filter(url => url.click_count > 0)`. */
  function ActiveLinks(links: seq<UrlStat>): seq<UrlStat>
  {
    Lists.Filter(links, IsActive)
  }

  /** "Link Aktif": the number of links clicked at least once. It never
      exceeds the number of links, equals it exactly when every link was
      clicked, and is 0 exactly when none was. */
  function ActiveLinkCount(links: seq<UrlStat>): (r: nat)
    ensures r == |set i | 0 <= i < |links| && links[i].clickCount > 0|
    ensures r <= |links|
    ensures r == |links| <==> forall i :: 0 <= i < |links| ==> links[i].clickCount > 0
    ensures r == 0 <==> forall i :: 0 <= i < |links| ==> links[i].clickCount <= 0
  {
    Lists.FilterFull(links, IsActive);
    Lists.FilterEmpty(links, IsActive);
    Lists.FilterLength(links, IsActive);
    assert Lists.IndicesWhere(links, IsActive) == set i | 0 <= i < |links| && links[i].clickCount > 0;
    |ActiveLinks(links)|
  }

  // ---------------------------------------------------------------------
  // Chart scale and Y-axis ticks
  // ---------------------------------------------------------------------

  /** `Math.max(...clicks, 1)`: the largest bucket value, and at least 1. */
  function MaxClicks(clicks: seq<int>): (r: int)
    ensures r >= 1
    ensures forall i :: 0 <= i < |clicks| ==> clicks[i] <= r
    ensures r == 1 || r in clicks
  {
    if clicks == [] then 1
    else
      var m := MaxClicks(clicks[1..]);
      if clicks[0] > m then clicks[0] else m
  }

  /** The chart scale depends only on which values occur, so reordering
      the buckets does not change it. */
  lemma MaxClicksSameValues(a: seq<int>, b: seq<int>)
    requires forall x :: x in a <==> x in b
    ensures MaxClicks(a) == MaxClicks(b)
  {
    var ma, mb := MaxClicks(a), MaxClicks(b);
    if ma != 1 {
      assert ma in b;
    }
    if mb != 1 {
      assert mb in a;
    }
  }

  /** The Y-axis labels `[max, Math.floor(max * 0.5), 0]`, top to bottom;
      they never increase. */
  function YTicks(maxClicks: int): (r: seq<int>)
    ensures |r| == 3 && r[0] == maxClicks && r[2] == 0
    ensures 2 * r[1] <= maxClicks < 2 * r[1] + 2
    ensures maxClicks >= 0 ==> r[0] >= r[1] >= r[2]
  {
    [maxClicks, maxClicks / 2, 0]
  }

  function MonthClicks(months: seq<MonthBucket>): (r: seq<int>)
    ensures |r| == |months| && forall i :: 0 <= i < |months| ==> r[i] == months[i].clicks
  {
    seq(|months|, i requires 0 <= i < |months| => months[i].clicks)
  }

  // ---------------------------------------------------------------------
  // Chronological order of the monthly chart
  // ---------------------------------------------------------------------

  /** The numeric month of a bucket, NaN (`None`) when it does not parse. */
  function MonthNumber(b: MonthBucket): Option<int>
  {
    ParseInt(b.month)
  }

  /** A comparator `key(a) - key(b)` over optional numeric keys; a NaN
      result counts as 0 (the two buckets are then treated as equal). */
  function CompareBy(key: MonthBucket -> Option<int>, a: MonthBucket, b: MonthBucket): int
  {
    if key(a).Some? && key(b).Some? then key(a).value - key(b).value else 0
  }

  predicate AllKeyed(key: MonthBucket -> Option<int>, ms: seq<MonthBucket>)
  {
    forall i :: 0 <= i < |ms| ==> key(ms[i]).Some?
  }

  predicate AscendingBy(key: MonthBucket -> Option<int>, ms: seq<MonthBucket>)
    requires AllKeyed(key, ms)
  {
    forall i, j :: 0 <= i < j < |ms| ==> key(ms[i]).value <= key(ms[j]).value
  }

  /** Inserts `b` before the first bucket that does not come before it. */
  function InsertBy(key: MonthBucket -> Option<int>, b: MonthBucket, sorted: seq<MonthBucket>)
    : (r: seq<MonthBucket>)
    ensures multiset(r) == multiset(sorted) + multiset{b}
  {
    if sorted == [] || CompareBy(key, b, sorted[0]) <= 0 then [b] + sorted
    else
      assert sorted == [sorted[0]] + sorted[1..];
      [sorted[0]] + InsertBy(key, b, sorted[1..])
  }

  /** Inserting a keyed bucket into buckets sorted by key keeps them sorted. */
  lemma {:induction false} InsertByAscending(
    key: MonthBucket -> Option<int>, b: MonthBucket, sorted: seq<MonthBucket>)
    requires AllKeyed(key, sorted) && key(b).Some? && AscendingBy(key, sorted)
    ensures AllKeyed(key, InsertBy(key, b, sorted)) && AscendingBy(key, InsertBy(key, b, sorted))
  {
    var r := InsertBy(key, b, sorted);
    if sorted == [] || CompareBy(key, b, sorted[0]) <= 0 {
      assert r == [b] + sorted;
    } else {
      var tail := sorted[1..];
      var rest := InsertBy(key, b, tail);
      assert r == [sorted[0]] + rest;
      InsertByAscending(key, b, tail);
      forall k | 0 <= k < |rest|
        ensures key(sorted[0]).value <= key(rest[k]).value
      {
        assert rest[k] in multiset(rest);
        if rest[k] != b {
          assert rest[k] in multiset(tail);
          var j :| 0 <= j < |tail| && tail[j] == rest[k];
          assert tail[j] == sorted[j + 1];
        }
      }
    }
  }

  /** An insertion sort under the comparator `key(a) - key(b)`: a
      reordering of its input, ascending by key whenever every key is a
      number. */
  function SortBy(key: MonthBucket -> Option<int>, ms: seq<MonthBucket>): (r: seq<MonthBucket>)
    ensures multiset(r) == multiset(ms)
    ensures |r| == |ms|
    ensures AllKeyed(key, ms) ==> AllKeyed(key, r) && AscendingBy(key, r)
  {
    if ms == [] then []
    else
      assert ms == [ms[0]] + ms[1..];
      var tail := SortBy(key, ms[1..]);
      var r := InsertBy(key, ms[0], tail);
      assert AllKeyed(key, ms) ==> AllKeyed(key, r) && AscendingBy(key, r) by {
        if AllKeyed(key, ms) {
          assert AllKeyed(key, ms[1..]);
          InsertByAscending(key, ms[0], tail);
        }
      }
      assert |r| == |multiset(r)|;
      r
  }

  /** `[...monthlyClicks].sort((a, b) => parseInt(a.month) - parseInt(b.month))`:
      a reordering of a copy of the buckets (the original list is a value
      and is left as it was), January first and December last whenever
      every month parses as a number. */
  function SortMonths(ms: seq<MonthBucket>): (r: seq<MonthBucket>)
    ensures multiset(r) == multiset(ms)
    ensures AllKeyed(MonthNumber, ms) ==> AllKeyed(MonthNumber, r) && AscendingBy(MonthNumber, r)
  {
    SortBy(MonthNumber, ms)
  }

  /** The Y-axis of the monthly chart is computed from the unsorted buckets
      and the bars from the sorted ones; both use the same scale. */
  lemma SortedMonthsSameScale(ms: seq<MonthBucket>)
    ensures MaxClicks(MonthClicks(SortMonths(ms))) == MaxClicks(MonthClicks(ms))
  {
    var s := SortMonths(ms);
    var a, b := MonthClicks(s), MonthClicks(ms);
    forall x | x in a ensures x in b {
      var i :| 0 <= i < |s| && a[i] == x;
      assert s[i] in multiset(ms);
      var j :| 0 <= j < |ms| && ms[j] == s[i];
      assert b[j] == x;
    }
    forall x | x in b ensures x in a {
      var j :| 0 <= j < |ms| && b[j] == x;
      assert ms[j] in multiset(s);
      var i :| 0 <= i < |s| && s[i] == ms[j];
      assert a[i] == x;
    }
    MaxClicksSameValues(a, b);
  }

  // ---------------------------------------------------------------------
  // Truncation and the click-details table
  // ---------------------------------------------------------------------

  const OriginalUrlLimit: nat := 30
  const UserAgentLimit: nat := 50
  const ClickRowLimit: nat := 50

  /** `s.length > n ? s.substring(0, n) + '...' : s`. */
  function Truncate(s: string, n: nat): (r: string)
    ensures |s| <= n ==> r == s
    ensures |s| > n ==> |r| == n + 3 && r[..n] == s[..n] && r[n..] == "..."
  {
    if |s| > n then s[..n] + "..." else s
  }

  /** Truncating a label that was already truncated changes nothing. */
  lemma TruncateIdempotent(s: string, n: nat)
    ensures Truncate(Truncate(s, n), n) == Truncate(s, n)
  {
    if |s| > n {
      var t := Truncate(s, n);
      assert t[..n] + "..." == t;
    }
  }

  /** Every shown label is at most `n + 3` characters long and starts with
      the first `n` characters of the text; a text of `n + 1` or `n + 2`
      characters comes out longer than it went in. */
  lemma TruncateShape(s: string, n: nat)
    ensures |Truncate(s, n)| <= n + 3
    ensures |s| <= n ==> Truncate(s, n) == s
    ensures |s| > n ==> s[..n] <= Truncate(s, n)
    ensures n < |s| < n + 3 ==> |Truncate(s, n)| > |s|
  {
  }

  /** The option label of a link in the filter drop-down. */
  function LinkOptionLabel(u: UrlStat): (r: string)
    ensures |u.originalUrl| <= OriginalUrlLimit ==> r == u.shortCode + " - " + u.originalUrl
    ensures |u.originalUrl| > OriginalUrlLimit ==>
              r == u.shortCode + " - " + u.originalUrl[..OriginalUrlLimit] + "..."
    ensures |r| <= |u.shortCode| + 3 + OriginalUrlLimit + 3
  {
    u.shortCode + " - " + Truncate(u.originalUrl, OriginalUrlLimit)
  }

  /** `clickDetails.slice(0, 50)`: the first at most 50 clicks, in order. */
  function VisibleClicks(details: seq<ClickDetail>): (r: seq<ClickDetail>)
    ensures |r| == if |details| < ClickRowLimit then |details| else ClickRowLimit
    ensures forall i :: 0 <= i < |r| ==> r[i] == details[i]
  {
    if |details| <= ClickRowLimit then details else details[..ClickRowLimit]
  }

  /** `click.referer || '-'`: never empty, and the referer itself when it
      is set. */
  function RefererLabel(referer: string): (r: string)
    ensures r != []
    ensures referer != [] ==> r == referer
    ensures referer == [] ==> r == "-"
  {
    if referer != [] then referer else "-"
  }

  /** The user-agent cell of a click row. */
  function UserAgentLabel(c: ClickDetail): (r: string)
    ensures |r| <= UserAgentLimit + 3
    ensures |c.userAgent| <= UserAgentLimit ==> r == c.userAgent
    ensures |c.userAgent| > UserAgentLimit ==> r == c.userAgent[..UserAgentLimit] + "..."
  {
    Truncate(c.userAgent, UserAgentLimit)
  }
}
