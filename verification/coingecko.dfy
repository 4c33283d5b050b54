/**
 * The CoinGecko provider (src/api/providers/coingecko.js): the optional API-key
 * header, the status handling of its three calls, the sorted currency list and
 * the daily downsampling of long histories.
 */
module CoinGeckoProvider {
  import opened Wrappers
  import opened Records
  import Text
  import Http

  const HeaderName: string := "x-cg-demo-api-key"
  const DefaultDays: int := 30
  /** Histories over more than this many days come hourly and are thinned to one sample a day. */
  const HourlyUpTo: int := 90
  const SamplesPerDay: nat := 24

  /** The second argument of `fetch`: no options, or a headers object. */
  datatype RequestOptions = NoOptions | WithHeaders(headers: seq<(string, string)>)

  /** `getHeaders`: nothing without a key (unset or empty), otherwise the one key header. */
  function GetHeaders(apiKey: Option<string>): (o: RequestOptions)
    ensures o.NoOptions? <==> apiKey.None? || apiKey.value == ""
    ensures o.WithHeaders? ==> o.headers == [(HeaderName, apiKey.value)]
  {
    if apiKey.None? || apiKey.value == "" then NoOptions else WithHeaders([(HeaderName, apiKey.value)])
  }

  /**
   * `fetchBitcoinPrices` given the reply (`body`: the decoded `data.bitcoin`,
   * absent when it is missing): the rates of an OK reply, otherwise nothing.
   */
  function FetchBitcoinPrices(response: Http.Response<map<string, real>>): (r: Option<map<string, real>>)
    ensures r.Some? <==> response.Reply? && Http.IsOk(response.status) && response.body.Some?
    ensures r.Some? ==> r.value == response.body.value
  {
    if response.Reply? && Http.IsOk(response.status) && response.body.Some? then response.body else None
  }

  /** Ascending in the default `sort` order (code-unit order). */
  predicate Sorted(s: seq<string>) {
    forall i, j :: 0 <= i < j < |s| ==> Text.Compare(s[i], s[j]) <= 0
  }

  /** Put `x` before the first element greater than it. */
  function Insert(x: string, s: seq<string>): seq<string>
    decreases |s|
  {
    if |s| == 0 then [x]
    else if Text.Compare(s[0], x) <= 0 then [s[0]] + Insert(x, s[1..])
    else [x] + s
  }

  /** Inserting adds exactly `x`. */
  lemma {:induction false} InsertMultiset(x: string, s: seq<string>)
    ensures multiset(Insert(x, s)) == multiset(s) + multiset{x}
    decreases |s|
  {
    if |s| > 0 {
      assert s == [s[0]] + s[1..];
      if Text.Compare(s[0], x) <= 0 {
        InsertMultiset(x, s[1..]);
      }
    }
  }

  /** Inserting into a sorted sequence keeps it sorted. */
  lemma {:induction false} InsertSorted(x: string, s: seq<string>)
    requires Sorted(s)
    ensures Sorted(Insert(x, s))
    decreases |s|
  {
    if |s| > 0 {
      if Text.Compare(s[0], x) <= 0 {
        var rest := Insert(x, s[1..]);
        InsertSorted(x, s[1..]);
        InsertMultiset(x, s[1..]);
        forall k | 0 <= k < |rest| ensures Text.Compare(s[0], rest[k]) <= 0 {
          assert rest[k] in multiset(rest);
          if rest[k] != x {
            assert rest[k] in multiset(s[1..]);
            var j :| 0 <= j < |s[1..]| && s[1..][j] == rest[k];
            assert s[j + 1] == rest[k];
          }
        }
        SortedCons(s[0], rest);
      } else {
        Text.CompareAntisymmetric(s[0], x);
        forall k | 0 <= k < |s| ensures Text.Compare(x, s[k]) <= 0 {
          if k > 0 { Text.CompareTransitive(x, s[0], s[k]); }
        }
        SortedCons(x, s);
      }
    }
  }

  /** A head not greater than every element of a sorted tail keeps it sorted. */
  lemma SortedCons(h: string, rest: seq<string>)
    requires Sorted(rest)
    requires forall k :: 0 <= k < |rest| ==> Text.Compare(h, rest[k]) <= 0
    ensures Sorted([h] + rest)
  {
    var s := [h] + rest;
    forall i, j | 0 <= i < j < |s| ensures Text.Compare(s[i], s[j]) <= 0 {
      if i > 0 { assert s[i] == rest[i - 1] && s[j] == rest[j - 1]; }
      else { assert s[j] == rest[j - 1]; }
    }
  }

  /** `data.sort()`: insertion sort, one element at a time from the end. */
  function Sort(s: seq<string>): (r: seq<string>)
    ensures Sorted(r) && multiset(r) == multiset(s)
    decreases |s|
  {
    if |s| == 0 then []
    else
      var sorted := Sort(s[..|s| - 1]);
      InsertSorted(s[|s| - 1], sorted);
      InsertMultiset(s[|s| - 1], sorted);
      assert s == s[..|s| - 1] + [s[|s| - 1]];
      Insert(s[|s| - 1], sorted)
  }

  /**
   * `fetchSupportedCurrencies` given the reply (`body`: the decoded array,
   * absent when decoding failed or the value is not an array): the codes in
   * ascending order, or `[]` on any failure. The status is not checked.
   */
  function FetchSupportedCurrencies(response: Http.Response<seq<string>>): (r: seq<string>)
    ensures Sorted(r)
    ensures response.Reply? && response.body.Some? ==> multiset(r) == multiset(response.body.value)
    ensures response.Failed? || response.body.None? ==> r == []
  {
    if response.Reply? && response.body.Some? then Sort(response.body.value) else []
  }

  /** `prices.filter((_, index) => index % 24 === 0)` */
  function Downsample(s: seq<Sample>): (r: seq<Sample>)
    ensures |r| == (|s| + SamplesPerDay - 1) / SamplesPerDay
    ensures forall k :: 0 <= k < |r| ==> r[k] == s[SamplesPerDay * k]
    decreases |s|
  {
    if |s| == 0 then []
    else if |s| <= SamplesPerDay then [s[0]]
    else [s[0]] + Downsample(s[SamplesPerDay..])
  }

  /** Thinning keeps the first sample and only samples of the input, in their order. */
  lemma DownsampleKeepsFirst(s: seq<Sample>)
    requires |s| > 0
    ensures |Downsample(s)| >= 1 && Downsample(s)[0] == s[0]
    ensures forall k :: 0 <= k < |Downsample(s)| ==> Downsample(s)[k] in s
  {
  }

  /** Status 401 (no access) and 429 (rate limited) are answered before the generic status check. */
  predicate Restricted(status: int) {
    status == 401 || status == 429
  }

  /**
   * `fetchBitcoinPriceHistoryRange` given `days` (absent: the default 30) and
   * the reply (`body`: the decoded `data.prices`, absent when it is missing):
   * nothing on failure, a restricted or any other non-OK status; otherwise the
   * samples, thinned to one a day past 90 days.
   */
  function FetchBitcoinPriceHistoryRange(days: Option<int>, response: Http.Response<seq<Sample>>)
    : (r: Option<seq<Sample>>)
    ensures r.Some? <==>
      response.Reply? && !Restricted(response.status) && Http.IsOk(response.status) && response.body.Some?
    ensures r.Some? ==>
      r.value == if days.GetOr(DefaultDays) > HourlyUpTo then Downsample(response.body.value)
                 else response.body.value
  {
    if response.Failed? then None
    else if Restricted(response.status) then None
    else if !Http.IsOk(response.status) then None
    else if response.body.None? then None
    else if days.GetOr(DefaultDays) > HourlyUpTo then Some(Downsample(response.body.value))
    else response.body
  }

  /** The default of 30 days returns the samples as they came; a year is thinned to a sample a day. */
  lemma HistoryExamples(samples: seq<Sample>)
    ensures FetchBitcoinPriceHistoryRange(None, Http.Reply(200, Some(samples))) == Some(samples)
    ensures FetchBitcoinPriceHistoryRange(Some(365), Http.Reply(200, Some(samples)))
      == Some(Downsample(samples))
    ensures FetchBitcoinPriceHistoryRange(Some(365), Http.Reply(429, Some(samples))) == None
    ensures FetchBitcoinPriceHistoryRange(Some(7), Http.Reply(500, Some(samples))) == None
  {
  }
}
