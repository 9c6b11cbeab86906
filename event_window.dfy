/** The page window over a chain event list used by the certificate page,
    the magic-shop page and the inventory page: the list is fetched whole,
    a page index comes in as a route parameter, and eight events are meant
    to be shown per page. */
module EventWindow {
  import opened Wrappers
  import opened JsNumbers
  import opened JsSeqs

  const PAGE_SIZE := 8
  const OUT_OF_PAGE := "Out of page"

  /** The window as the handlers compute it: `page * 8 < events.length`
      accepts the page and `events.slice(page * 8, (page + 1) * 8)` cuts it.
      `page` is the raw route string, so `page * 8` converts it to a number
      while `page + 1` appends the character "1" before `* 8` converts. */
  function Window<T>(events: seq<T>, page: string): (r: Response<seq<T>>)
    ensures r.Ok? <==> LessThan(Times(ToNumber(page), PAGE_SIZE), |events|)
    ensures !r.Ok? ==> r == NotFound(OUT_OF_PAGE)
    ensures r.Ok? ==> |r.body| <= |events|
  {
    var start := Times(ToNumber(page), PAGE_SIZE);
    if LessThan(start, |events|) then
      var end := Times(ToNumber(page + "1"), PAGE_SIZE);
      Ok(Slice(events, ToIntegerOrInfinity(start), ToIntegerOrInfinity(end)))
    else NotFound(OUT_OF_PAGE)
  }

  /** Once the page string and the page string with "1" appended convert
      to the integers a and b, the page is accepted exactly when 8a is
      below the length, and then cuts the events from 8a up to 8b. */
  lemma WindowOfNumbers<T>(events: seq<T>, page: string, a: nat, b: nat)
    requires ToNumber(page) == Int(a) && ToNumber(page + "1") == Int(b) && a <= b
    ensures 8 * a < |events| ==> Window(events, page) == Ok(events[8 * a..Min(|events|, 8 * b)])
    ensures 8 * a >= |events| ==> Window(events, page) == NotFound(OUT_OF_PAGE)
  {
    if 8 * a < |events| {
      SliceNonNegative(events, 8 * a, 8 * b);
    }
  }

  /** A page written in decimal digits with value n is accepted exactly when
      8n < |events|, and then holds the events from 8n up to 8 * (10n + 1),
      in their original order. */
  lemma WindowOfDecimalPage<T>(events: seq<T>, page: string)
    requires IsDigitString(page)
    ensures 8 * DecimalValue(page) < |events| ==>
      Window(events, page)
      == Ok(events[8 * DecimalValue(page)..Min(|events|, 8 * (10 * DecimalValue(page) + 1))])
    ensures 8 * DecimalValue(page) >= |events| ==> Window(events, page) == NotFound(OUT_OF_PAGE)
  {
    var n := DecimalValue(page);
    assert ToNumber(page) == Int(n) by {
      ToNumberOfDigits(page);
    }
    assert ToNumber(page + "1") == Int(10 * n + 1) by {
      ToNumberAppendOne(page);
    }
    WindowOfNumbers(events, page, n, 10 * n + 1);
    if 8 * n < |events| {
      assert Window(events, page) == Ok(events[8 * n..Min(|events|, 8 * (10 * n + 1))]);
    }
  }

  /** Page "0" is the first eight events, or all of them when there are fewer. */
  lemma FirstPage<T>(events: seq<T>)
    ensures Window(events, "0")
      == if |events| > 0 then Ok(events[..Min(8, |events|)]) else NotFound(OUT_OF_PAGE)
  {
    assert IsDigitString("0") && DecimalValue("0") == 0;
    WindowOfDecimalPage(events, "0");
  }

  /** Page "1" runs from the ninth event up to the 88th, not the 16th. */
  lemma SecondPage<T>(events: seq<T>)
    ensures Window(events, "1")
      == if 8 < |events| then Ok(events[8..Min(|events|, 88)]) else NotFound(OUT_OF_PAGE)
  {
    assert IsDigitString("1") && DecimalValue("1") == 1;
    WindowOfDecimalPage(events, "1");
  }

  /** A negative page is always accepted, and every one but "-0" is empty. */
  lemma NegativePageIsEmpty<T>(events: seq<T>, d: string)
    requires IsDigitString(d) && DecimalValue(d) > 0
    ensures Window(events, "-" + d) == Ok([])
  {
    ToNumberOfNegative(d);
    ToNumberOfNegativeAppendOne(d);
    assert "-" + d + "1" == ("-" + d) + "1";
  }

  /** Page "-0" is accepted for any non-empty list and holds all of it but
      the last eight events. */
  lemma MinusZeroPage<T>(events: seq<T>)
    requires |events| > 0
    ensures Window(events, "-0") == Ok(events[..|events| - Min(8, |events|)])
  {
    assert IsDigitString("0") && DecimalValue("0") == 0;
    ToNumberOfNegative("0");
    ToNumberOfNegativeAppendOne("0");
    assert "-" + "0" == "-0";
    assert "-" + "0" + "1" == "-0" + "1";
    if |events| < 8 {
      assert Slice(events, 0, -8) == [];
    }
  }

  /** With 17 events, page "1" holds nine of them and its last one is also
      the whole of page "2", so paging shows event 16 twice. */
  lemma WindowPagesOverlap<T>(events: seq<T>)
    requires |events| == 17
    ensures Window(events, "1") == Ok(events[8..17])
    ensures Window(events, "2") == Ok(events[16..17])
  {
    assert Window(events, "1") == Ok(events[8..17]) by {
      SecondPage(events);
    }
    assert Window(events, "2") == Ok(events[16..17]) by {
      assert IsDigitString("2") && DecimalValue("2") == 2;
      WindowOfDecimalPage(events, "2");
      assert Min(|events|, 8 * (10 * 2 + 1)) == 17;
    }
  }

  // The window as evidently intended

  /** `events.slice(n * 8, (n + 1) * 8)` for a page number n, accepted while
      8n is below the length. */
  function IntendedWindowAt<T>(events: seq<T>, n: int): (r: Response<seq<T>>)
    ensures !r.Ok? ==> r == NotFound(OUT_OF_PAGE)
    ensures r.Ok? ==> |r.body| <= PAGE_SIZE
  {
    if PAGE_SIZE * n < |events| then Ok(Slice(events, PAGE_SIZE * n, PAGE_SIZE * (n + 1)))
    else NotFound(OUT_OF_PAGE)
  }

  /** The handler with `(Number(page) + 1) * 8` as the end of the slice. */
  function IntendedWindow<T>(events: seq<T>, page: string): (r: Response<seq<T>>)
    ensures !r.Ok? ==> r == NotFound(OUT_OF_PAGE)
    ensures r.Ok? ==> |r.body| <= PAGE_SIZE
  {
    match ToNumber(page)
    case NaN => NotFound(OUT_OF_PAGE)
    case Int(n) => IntendedWindowAt(events, n)
  }

  /** The page written as `String(n)` is page number n. */
  lemma IntendedWindowOfPage<T>(events: seq<T>, n: nat)
    ensures IntendedWindow(events, NatToDecimal(n)) == IntendedWindowAt(events, n)
  {
    ToNumberOfNatToDecimal(n);
  }

  /** Page number n is the n-th run of eight events, or "Out of page" once 8n
      reaches the length. */
  lemma IntendedWindowAtPage<T>(events: seq<T>, n: nat)
    ensures 8 * n < |events| ==> IntendedWindowAt(events, n) == Ok(events[8 * n..Min(|events|, 8 * n + 8)])
    ensures 8 * n >= |events| ==> IntendedWindowAt(events, n) == NotFound(OUT_OF_PAGE)
  {
    if 8 * n < |events| {
      SliceNonNegative(events, 8 * n, 8 * (n + 1));
    }
  }

  /** The bodies of pages n, n + 1, ... up to the first one out of page, joined. */
  function IntendedPages<T>(events: seq<T>, n: nat): seq<T>
    decreases |events| - 8 * n
  {
    if 8 * n < |events| then
      (match IntendedWindowAt(events, n)
       case Ok(body) => body
       case _ => [])
      + IntendedPages(events, n + 1)
    else []
  }

  lemma {:induction false} IntendedPagesFrom<T>(events: seq<T>, n: nat)
    requires 8 * n <= |events|
    ensures IntendedPages(events, n) == events[8 * n..]
    decreases |events| - 8 * n
  {
    if 8 * n < |events| {
      var m := Min(|events|, 8 * n + 8);
      assert IntendedWindowAt(events, n) == Ok(events[8 * n..m]) by {
        IntendedWindowAtPage(events, n);
      }
      assert IntendedPages(events, n) == events[8 * n..m] + IntendedPages(events, n + 1);
      if m == |events| {
        assert IntendedPages(events, n + 1) == [];
      } else {
        IntendedPagesFrom(events, n + 1);
      }
      assert events[8 * n..] == events[8 * n..m] + events[m..];
    }
  }

  /** Joining the intended pages from page 0 gives back the event list: no
      event is lost or repeated. */
  lemma IntendedPagesReassemble<T>(events: seq<T>)
    ensures IntendedPages(events, 0) == events
  {
    IntendedPagesFrom(events, 0);
  }
}
