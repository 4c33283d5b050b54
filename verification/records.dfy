/**
 * The records the components pass around. A saved item's `price` is the
 * number its price text parses to; an empty `category` stands for both a
 * missing and an empty category, which every reader treats alike.
 */
module Records {
  import opened Wrappers
  import opened JsNumber

  datatype SavedItem = SavedItem(
    id: int,
    name: string,
    price: real,
    currency: string,
    sats: int,
    category: string,
    dateAdded: string,
    currentSats: Option<int>)

  /** What a converter hands to "add to list": an item before it has an id and a date. */
  datatype Draft = Draft(
    name: string,
    price: real,
    currency: string,
    sats: int,
    category: string,
    currentSats: Option<int>)

  /** `{ ...draft, id, dateAdded }`: the draft's fields with the given id and date. */
  function Stamp(d: Draft, id: int, dateAdded: string): (r: SavedItem)
    ensures r.id == id && r.dateAdded == dateAdded
    ensures r.name == d.name && r.price == d.price && r.currency == d.currency
    ensures r.sats == d.sats && r.category == d.category && r.currentSats == d.currentSats
  {
    SavedItem(id, d.name, d.price, d.currency, d.sats, d.category, dateAdded, d.currentSats)
  }

  /** `!btcPrices || !btcPrices[currency]` fails: a rate map with a non-zero rate for `currency`. */
  predicate HasRate(btcPrices: Option<map<string, real>>, currency: string) {
    btcPrices.Some? && currency in btcPrices.value && btcPrices.value[currency] != 0.0
  }

  /** One `[timestamp, btcPrice]` sample of a price history. */
  datatype Sample = Sample(time: int, price: real)

  /** One point of a comparison chart: a date label and the item's cost in sats then. */
  datatype Point = Point(date: string, sats: Num)

  /** What the comparison modal is given: an error message or an item's chart. */
  datatype ModalData = ErrorData(error: string) | ChartData(itemName: string, chartData: seq<Point>)

  /** `items.reduce((total, item) => total + item.sats, 0)` */
  function TotalSats(items: seq<SavedItem>): int
    decreases |items|
  {
    if |items| == 0 then 0 else TotalSats(items[..|items| - 1]) + items[|items| - 1].sats
  }

  /** The total of a concatenation is the sum of the totals. */
  lemma {:induction false} TotalSatsConcat(a: seq<SavedItem>, b: seq<SavedItem>)
    ensures TotalSats(a + b) == TotalSats(a) + TotalSats(b)
    decreases |b|
  {
    if |b| > 0 {
      assert (a + b)[..|a + b| - 1] == a + b[..|b| - 1];
      TotalSatsConcat(a, b[..|b| - 1]);
    } else {
      assert a + b == a;
    }
  }
}
