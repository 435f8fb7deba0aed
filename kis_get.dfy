/** The quote-source side of the system (kis/get.py): the day/night exchange
    code translation, the page generator's record rule, the paginated
    history assembler `StockPrice.analyzer`, and the screening loop of
    `Explorer.cond_search_api_call`. HTTP answers are parameters: a page
    source from an anchor date to the rows of that page, a search function
    from an exchange code to its hits, and the day/night flag string. */
module KisGet {
  import opened Wrappers

  // ---------------------------------------------------------------------
  // Exchange codes
  // ---------------------------------------------------------------------

  /** The night exchanges the screener walks through, in order. */
  const ExchangeList: seq<string> := ["AMS", "NAS", "NYS"]

  /** Each night exchange's daytime counterpart. */
  const DaytimeCodes: map<string, string> := map["AMS" := "BAA", "NAS" := "BAQ", "NYS" := "BAY"]

  /** The code to send to the quote server. `psblYn` is the `PSBL_YN` field of
      the day/night answer; "N" means daytime. In daytime a code outside the
      table is a `KeyError`, modelled as `None`. */
  function DayNightConsider(exchangeCode: string, psblYn: string): (r: Option<string>)
    ensures psblYn != "N" ==> r == Some(exchangeCode)
    ensures psblYn == "N" ==> (r.Some? <==> exchangeCode in ExchangeList)
  {
    var isDaytime := psblYn == "N";
    if !isDaytime then Some(exchangeCode)
    else if exchangeCode in DaytimeCodes then Some(DaytimeCodes[exchangeCode])
    else None
  }

  /** Back from a daytime code to the night exchange it stands for. */
  function NightCode(code: string): (r: string)
  {
    if code == "BAA" then "AMS"
    else if code == "BAQ" then "NAS"
    else if code == "BAY" then "NYS"
    else code
  }

  /** In daytime every listed exchange is renamed to a different code, and
      the renaming can be undone, so no two exchanges share a daytime code. */
  lemma DaytimeRoundTrip(exchangeCode: string)
    requires exchangeCode in ExchangeList
    ensures DayNightConsider(exchangeCode, "N").Some?
    ensures DayNightConsider(exchangeCode, "N").value != exchangeCode
    ensures DayNightConsider(exchangeCode, "N").value !in ExchangeList
    ensures NightCode(DayNightConsider(exchangeCode, "N").value) == exchangeCode
  {
  }

  // ---------------------------------------------------------------------
  // Records and pages
  // ---------------------------------------------------------------------

  /** One row of a daily-price page as the server sends it. An empty closing
      price (`clos`) is `None`. Dates are day numbers. */
  datatype Quote = Quote(xymd: int, clos: Option<real>, low: real, high: real, tvol: real, tamt: real)

  /** One record the page generator yields. */
  datatype Record = Record(date: int, price: real, low: real, high: real, tvol: real, tamt: real)

  /** The daily-price endpoint: the rows of the page anchored at a date,
      most recent first. */
  type PageSource = int -> seq<Quote>

  datatype Error =
    | NoMoreData   // a row with an empty closing price was reached
    | EmptyBuffer  // a page ended while the buffer was empty (`del` on an empty list)
    | OutOfFuel    // the page-request bound was used up

  /** The record the generator yields for a row that has a closing price. */
  function ToRecord(q: Quote): (r: Record)
    requires q.clos.Some?
    ensures r.date == q.xymd && r.price == q.clos.value
  {
    Record(q.xymd, q.clos.value, q.low, q.high, q.tvol, q.tamt)
  }

  /** The row a well-formed record came from. */
  function ToQuote(r: Record): (q: Quote)
    ensures q.clos.Some? && ToRecord(q) == r
  {
    Quote(r.date, Some(r.price), r.low, r.high, r.tvol, r.tamt)
  }

  function ToQuotes(rs: seq<Record>): (qs: seq<Quote>)
    // restates the body; helps the solver
    ensures |qs| == |rs|
    ensures forall i :: 0 <= i < |rs| ==> qs[i] == ToQuote(rs[i])
  {
    seq(|rs|, i requires 0 <= i < |rs| => ToQuote(rs[i]))
  }

  // ---------------------------------------------------------------------
  // Columns
  // ---------------------------------------------------------------------

  /** The six parallel lists the assembler hands on. */
  datatype Columns = Columns(date: seq<int>, price: seq<real>, low: seq<real>,
                             high: seq<real>, tvol: seq<real>, tamt: seq<real>)

  predicate Aligned(c: Columns)
  {
    |c.price| == |c.date| && |c.low| == |c.date| && |c.high| == |c.date|
    && |c.tvol| == |c.date| && |c.tamt| == |c.date|
  }

  /** The records laid out column by column, in the same order. */
  function ColumnsOf(recs: seq<Record>): (c: Columns)
    ensures Aligned(c) && |c.date| == |recs|
  {
    Columns(seq(|recs|, i requires 0 <= i < |recs| => recs[i].date),
            seq(|recs|, i requires 0 <= i < |recs| => recs[i].price),
            seq(|recs|, i requires 0 <= i < |recs| => recs[i].low),
            seq(|recs|, i requires 0 <= i < |recs| => recs[i].high),
            seq(|recs|, i requires 0 <= i < |recs| => recs[i].tvol),
            seq(|recs|, i requires 0 <= i < |recs| => recs[i].tamt))
  }

  lemma ColumnsOfAppend(recs: seq<Record>, r: Record)
    ensures ColumnsOf(recs + [r]) ==
      var c := ColumnsOf(recs);
      Columns(c.date + [r.date], c.price + [r.price], c.low + [r.low],
              c.high + [r.high], c.tvol + [r.tvol], c.tamt + [r.tamt])
  {
  }

  lemma ColumnsOfDropLast(recs: seq<Record>)
    requires recs != []
    ensures ColumnsOf(recs[..|recs| - 1]) ==
      var c, n := ColumnsOf(recs), |recs| - 1;
      Columns(c.date[..n], c.price[..n], c.low[..n], c.high[..n], c.tvol[..n], c.tamt[..n])
  {
  }

  /** The `total` dictionary of lists: one list per record key, all of them
      appended to and shortened together. `Contents` is the records they hold. */
  class Total {
    var date: seq<int>
    var price: seq<real>
    var low: seq<real>
    var high: seq<real>
    var tvol: seq<real>
    var tamt: seq<real>
    ghost var Contents: seq<Record>

    ghost predicate Valid()
      reads this
    {
      Columns(date, price, low, high, tvol, tamt) == ColumnsOf(Contents)
    }

    function Length(): (n: nat)
      reads this
      requires Valid()
      ensures n == |Contents|
    {
      |date|
    }

    constructor ()
      ensures Valid() && Contents == []
    {
      date, price, low, high, tvol, tamt := [], [], [], [], [], [];
      Contents := [];
    }

    /** `total[key].append(value)` for every key of one record. */
    method Append(r: Record)
      requires Valid()
      modifies this
      ensures Valid() && Contents == old(Contents) + [r]
    {
      ColumnsOfAppend(Contents, r);
      date := date + [r.date];
      price := price + [r.price];
      low := low + [r.low];
      high := high + [r.high];
      tvol := tvol + [r.tvol];
      tamt := tamt + [r.tamt];
      Contents := Contents + [r];
    }

    /** `del data[-1]` for every list: exactly the last record goes. */
    method DropLast()
      requires Valid() && Contents != []
      modifies this
      ensures Valid() && Contents == old(Contents)[..|old(Contents)| - 1]
    {
      ColumnsOfDropLast(Contents);
      var n := |date| - 1;
      date := date[..n];
      price := price[..n];
      low := low[..n];
      high := high[..n];
      tvol := tvol[..n];
      tamt := tamt[..n];
      Contents := Contents[..n];
    }
  }

  // ---------------------------------------------------------------------
  // The assembler
  // ---------------------------------------------------------------------

  /** What `analyzer`'s loop computes from a state: the records gathered so
      far (`buf`), the rows the current page has still to yield (`rest`), the
      record yielded last (`current`), and how many more pages may be
      requested (`fuel`). While fewer than `size` records are held, the next
      row is yielded (or raises `NoMoreData` when its closing price is empty);
      at a page end the last record is deleted and the page anchored at
      `current`'s date is requested. */
  function Assemble(pages: PageSource, buf: seq<Record>, rest: seq<Quote>,
                    current: Option<Record>, size: int, fuel: nat): (r: Result<seq<Record>, Error>)
    requires buf != [] ==> current.Some?
    ensures r.Ok? ==> |r.value| == if |buf| < size then size else |buf|
    decreases fuel, size - |buf|
  {
    if |buf| >= size then Ok(buf)
    else if rest != [] then
      if rest[0].clos.None? then Err(NoMoreData)
      else
        var rec := ToRecord(rest[0]);
        Assemble(pages, buf + [rec], rest[1..], Some(rec), size, fuel)
    else if buf == [] then Err(EmptyBuffer)
    else if fuel == 0 then Err(OutOfFuel)
    else Assemble(pages, buf[..|buf| - 1], pages(current.value.date), current, size, fuel - 1)
  }

  /** `analyzer(size, ref_day)` with at most `fuel` page requests after the
      first: the six columns of `size` records, or the error that ends it. */
  function History(pages: PageSource, size: int, refDay: int, fuel: nat): (r: Result<seq<Record>, Error>)
    ensures r.Ok? ==> |r.value| == if 0 < size then size else 0
  {
    Assemble(pages, [], pages(refDay), None, size, fuel)
  }

  function AsColumns(o: Result<seq<Record>, Error>): (r: Result<Columns, Error>)
    // restates the body; helps the solver
    ensures r.Ok? <==> o.Ok?
    ensures r.Ok? ==> r.value == ColumnsOf(o.value)
    ensures r.Err? ==> r.error == o.error
  {
    match o
    case Ok(recs) => Ok(ColumnsOf(recs))
    case Err(e) => Err(e)
  }

  /** `StockPrice.analyzer`: pulls records page by page into the `total`
      lists until they hold `size` records. */
  method Analyzer(pages: PageSource, size: int, refDay: int, fuel: nat) returns (r: Result<Columns, Error>)
    requires 1 <= size
    ensures r == AsColumns(History(pages, size, refDay, fuel))
    ensures r.Ok? ==> Aligned(r.value) && |r.value.date| == size
  {
    var total := new Total();
    var it := pages(refDay);
    var current: Option<Record> := None;
    var left := fuel;
    while total.Length() < size
      invariant total.Valid()
      invariant total.Contents != [] ==> current.Some?
      invariant |total.Contents| <= size
      invariant Assemble(pages, total.Contents, it, current, size, left) == History(pages, size, refDay, fuel)
      decreases left, size - |total.Contents|
    {
      if it != [] {
        var q := it[0];
        it := it[1..];
        if q.clos.None? {
          return Err(NoMoreData);
        }
        var rec := ToRecord(q);
        current := Some(rec);
        total.Append(rec);
      } else {
        // the page ended: drop the boundary record and re-anchor
        if total.Length() == 0 {
          return Err(EmptyBuffer);
        }
        if left == 0 {
          return Err(OutOfFuel);
        }
        total.DropLast();
        it := pages(current.value.date);
        left := left - 1;
      }
    }
    r := Ok(Columns(total.date, total.price, total.low, total.high, total.tvol, total.tamt));
  }

  // ---------------------------------------------------------------------
  // Properties of the assembler
  // ---------------------------------------------------------------------

  function Last<T>(s: seq<T>): T
    requires s != []
  {
    s[|s| - 1]
  }

  /** The rest of a page whose rows all carry a closing price, enough of
      them to reach `size`: the records are taken in page order and the
      assembler stops exactly at `size`. */
  lemma {:induction false} TakeFromPage(pages: PageSource, buf: seq<Record>, recs: seq<Record>,
                                        tail: seq<Quote>, cur: Option<Record>, size: int, fuel: nat)
    requires buf != [] ==> cur.Some?
    requires |buf| <= size <= |buf| + |recs|
    ensures Assemble(pages, buf, ToQuotes(recs) + tail, cur, size, fuel) == Ok(buf + recs[..size - |buf|])
    decreases |recs|
  {
    if |buf| == size {
      assert buf + recs[..0] == buf;
    } else {
      var rest := ToQuotes(recs) + tail;
      assert rest[0] == ToQuote(recs[0]);
      assert rest[1..] == ToQuotes(recs[1..]) + tail;
      TakeFromPage(pages, buf + [recs[0]], recs[1..], tail, Some(recs[0]), size, fuel);
      assert (buf + [recs[0]]) + recs[1..][..size - |buf| - 1] == buf + recs[..size - |buf|];
    }
  }

  /** A page whose rows all carry a closing price and which ends before
      `size` is reached is appended whole, in page order; the last record
      yielded becomes `current`. */
  lemma {:induction false} DrainPage(pages: PageSource, buf: seq<Record>, recs: seq<Record>,
                                     cur: Option<Record>, size: int, fuel: nat)
    requires buf != [] ==> cur.Some?
    requires |buf| + |recs| < size
    ensures Assemble(pages, buf, ToQuotes(recs), cur, size, fuel)
         == Assemble(pages, buf + recs, [], if recs == [] then cur else Some(Last(recs)), size, fuel)
    decreases |recs|
  {
    if recs == [] {
      assert buf + recs == buf;
    } else {
      var rest := ToQuotes(recs);
      var rec := recs[0];
      assert rest[0] == ToQuote(rec) && ToRecord(rest[0]) == rec;
      assert rest[1..] == ToQuotes(recs[1..]);
      assert Assemble(pages, buf, rest, cur, size, fuel)
          == Assemble(pages, buf + [rec], rest[1..], Some(rec), size, fuel);
      DrainPage(pages, buf + [recs[0]], recs[1..], Some(recs[0]), size, fuel);
      assert (buf + [recs[0]]) + recs[1..] == buf + recs;
      if recs[1..] != [] {
        assert Last(recs[1..]) == Last(recs);
      }
    }
  }

  /** A row with an empty closing price reached before `size` records are
      held raises `NoMoreData`, which the assembler does not catch: no
      shorter series is returned. */
  lemma {:induction false} GapRaises(pages: PageSource, buf: seq<Record>, recs: seq<Record>, q: Quote,
                                     tail: seq<Quote>, cur: Option<Record>, size: int, fuel: nat)
    requires buf != [] ==> cur.Some?
    requires q.clos.None?
    requires |buf| + |recs| < size
    ensures Assemble(pages, buf, ToQuotes(recs) + [q] + tail, cur, size, fuel) == Err(NoMoreData)
    decreases |recs|
  {
    var rest := ToQuotes(recs) + [q] + tail;
    if recs == [] {
      assert rest[0] == q;
    } else {
      assert rest[0] == ToQuote(recs[0]);
      assert rest[1..] == ToQuotes(recs[1..]) + [q] + tail;
      GapRaises(pages, buf + [recs[0]], recs[1..], q, tail, Some(recs[0]), size, fuel);
    }
  }

  /** `analyzer` fails with `NoMoreData` when the first page has fewer than
      `size` priced rows before one with an empty closing price. */
  lemma FirstPageGap(pages: PageSource, size: int, refDay: int, fuel: nat,
                     recs: seq<Record>, q: Quote, tail: seq<Quote>)
    requires pages(refDay) == ToQuotes(recs) + [q] + tail
    requires q.clos.None? && |recs| < size
    ensures History(pages, size, refDay, fuel) == Err(NoMoreData)
  {
    GapRaises(pages, [], recs, q, tail, None, size, fuel);
  }

  /** When the page anchored at `current`'s date is empty, every page end
      deletes one more record and asks for the same page again, so the
      assembler never returns a series: it ends on an empty buffer or on the
      request bound: on the empty buffer when at least one request per held
      record is left, on the bound otherwise. */
  lemma {:induction false} EmptyAnchorPageFails(pages: PageSource, buf: seq<Record>, c: Record, size: int, fuel: nat)
    requires pages(c.date) == []
    requires |buf| < size
    ensures Assemble(pages, buf, [], Some(c), size, fuel)
         == if fuel >= |buf| then Err(EmptyBuffer) else Err(OutOfFuel)
    decreases fuel
  {
    if buf != [] && fuel > 0 {
      EmptyAnchorPageFails(pages, buf[..|buf| - 1], c, size, fuel - 1);
    }
  }

  /** Pages whose first record is the previous page's last one, each page
      being the one anchored at that shared record's date. */
  ghost predicate Chained(pages: PageSource, ps: seq<seq<Record>>)
  {
    (forall i :: 0 <= i < |ps| ==> ps[i] != [])
    && Linked(pages, ps)
  }

  ghost predicate Linked(pages: PageSource, ps: seq<seq<Record>>)
  {
    |ps| >= 2 ==>
      ps[0] != [] && ps[1] != [] && ps[1][0] == Last(ps[0])
      && pages(Last(ps[0]).date) == ToQuotes(ps[1])
      && Linked(pages, ps[1..])
  }

  /** The pages concatenated with every boundary record kept once: the first
      page whole, then each later page without its first record. */
  function Stitch(ps: seq<seq<Record>>): (s: seq<Record>)
    requires forall i :: 0 <= i < |ps| ==> ps[i] != []
    ensures |ps| > 0 ==> |ps[0]| <= |s| && s[..|ps[0]|] == ps[0]
  {
    if |ps| == 0 then []
    else if |ps| == 1 then ps[0]
    else ps[0] + Stitch(ps[1..])[1..]
  }

  function TotalLength(ps: seq<seq<Record>>): nat
  {
    if ps == [] then 0 else |ps[0]| + TotalLength(ps[1..])
  }

  /** Every boundary removes exactly one record: `n` pages stitch to their
      total length minus `n - 1`. */
  lemma {:induction false} StitchLength(ps: seq<seq<Record>>)
    requires |ps| > 0
    requires forall i :: 0 <= i < |ps| ==> ps[i] != []
    ensures |Stitch(ps)| == TotalLength(ps) - (|ps| - 1)
  {
    if |ps| > 1 {
      StitchLength(ps[1..]);
      assert TotalLength(ps) == |ps[0]| + TotalLength(ps[1..]);
    }
  }

  /** The merge rule: from any state that is about to read a page of a
      chain, the result is the stitched chain after the records already
      held, cut at `size`, provided the chain is long enough and enough page
      requests are allowed. */
  lemma {:induction false} AssembleChain(pages: PageSource, buf: seq<Record>, ps: seq<seq<Record>>,
                                         cur: Option<Record>, size: int, fuel: nat)
    requires |ps| >= 1 && Chained(pages, ps)
    requires buf != [] ==> cur.Some?
    requires |buf| < size <= |buf| + |Stitch(ps)|
    requires fuel >= |ps| - 1
    ensures Assemble(pages, buf, ToQuotes(ps[0]), cur, size, fuel) == Ok((buf + Stitch(ps))[..size])
    decreases |ps|
  {
    var p := ps[0];
    if size <= |buf| + |p| {
      TakeFromPage(pages, buf, p, [], cur, size, fuel);
      assert ToQuotes(p) + [] == ToQuotes(p);
      assert buf + p[..size - |buf|] == (buf + Stitch(ps))[..size];
    } else {
      assert |ps| >= 2;
      DrainPage(pages, buf, p, cur, size, fuel);
      var anchor := Last(p);
      var held := buf + p[..|p| - 1];
      assert (buf + p)[..|buf + p| - 1] == held;
      assert Assemble(pages, buf + p, [], Some(anchor), size, fuel)
          == Assemble(pages, held, pages(anchor.date), Some(anchor), size, fuel - 1);
      ChainTail(pages, ps);
      StitchStep(ps);
      assert buf + Stitch(ps) == held + Stitch(ps[1..]);
      AssembleChain(pages, held, ps[1..], Some(anchor), size, fuel - 1);
    }
  }

  lemma ChainTail(pages: PageSource, ps: seq<seq<Record>>)
    requires |ps| >= 2 && Chained(pages, ps)
    ensures Chained(pages, ps[1..])
    ensures pages(Last(ps[0]).date) == ToQuotes(ps[1..][0])
  {
  }

  /** Stitching drops exactly the first page's last record, which reappears
      as the next page's first. */
  lemma StitchStep(ps: seq<seq<Record>>)
    requires |ps| >= 2
    requires forall i :: 0 <= i < |ps| ==> ps[i] != []
    requires ps[1][0] == Last(ps[0])
    ensures Stitch(ps) == ps[0][..|ps[0]| - 1] + Stitch(ps[1..])
  {
  }

  /** The overlap rule at the level of `analyzer`: if each new page starts
      with the record the previous page ended on, the series is the pages
      stitched together (boundary records kept once, most recent first, no
      reversal), cut at `size`. */
  lemma StitchedHistory(pages: PageSource, size: int, refDay: int, fuel: nat, ps: seq<seq<Record>>)
    requires |ps| >= 1 && Chained(pages, ps)
    requires pages(refDay) == ToQuotes(ps[0])
    requires 1 <= size <= |Stitch(ps)|
    requires fuel >= |ps| - 1
    ensures History(pages, size, refDay, fuel) == Ok(Stitch(ps)[..size])
  {
    AssembleChain(pages, [], ps, None, size, fuel);
    assert [] + Stitch(ps) == Stitch(ps);
  }

  // ---------------------------------------------------------------------
  // The screener
  // ---------------------------------------------------------------------

  /** One row of a condition-search answer: the exchange and the symbol. */
  datatype Hit = Hit(excd: string, symb: string)

  /** The `size` the screener calls `analyzer` with (its default). */
  const DefaultSize: int := 100

  type Outcome = Result<Columns, Error>

  /** An error the screener does not catch. */
  predicate Fatal(o: Outcome)
  {
    o.Err? && o.error != NoMoreData
  }

  /** The screening loop read backwards from its last outcome: a result is
      kept, `NoMoreData` is skipped, any other error ends the call. */
  function Screen(outs: seq<Outcome>): (r: Result<seq<Columns>, Error>)
    ensures r.Ok? ==> |r.value| <= |outs|
    ensures r.Err? ==> Fatal(Err(r.error)) && Err(r.error) in outs
  {
    if outs == [] then Ok([])
    else
      match Screen(outs[..|outs| - 1])
      case Err(e) => Err(e)
      case Ok(cs) =>
        match Last(outs)
        case Ok(c) => Ok(cs + [c])
        case Err(e) => if e == NoMoreData then Ok(cs) else Err(e)
  }

  /** The results among the outcomes, in encounter order. */
  function Survivors(outs: seq<Outcome>): (cs: seq<Columns>)
    ensures |cs| <= |outs|
  {
    if outs == [] then []
    else (if outs[0].Ok? then [outs[0].value] else []) + Survivors(outs[1..])
  }

  lemma {:induction false} SurvivorsAppend(outs: seq<Outcome>, o: Outcome)
    ensures Survivors(outs + [o]) == Survivors(outs) + (if o.Ok? then [o.value] else [])
    decreases |outs|
  {
    if outs == [] {
      assert Survivors([o]) == (if o.Ok? then [o.value] else []) + Survivors([]);
    } else {
      var whole := outs + [o];
      assert whole[0] == outs[0];
      assert whole[1..] == outs[1..] + [o];
      SurvivorsAppend(outs[1..], o);
      var head := if outs[0].Ok? then [outs[0].value] else [];
      assert Survivors(whole) == head + Survivors(outs[1..] + [o]);
      assert Survivors(outs) == head + Survivors(outs[1..]);
    }
  }

  /** A symbol's result is among the survivors exactly when its assembly
      returned one: a symbol whose assembly raised is not there. */
  lemma {:induction false} SurvivorsMembers(outs: seq<Outcome>, c: Columns)
    ensures c in Survivors(outs) <==> Ok(c) in outs
    decreases |outs|
  {
    if outs != [] {
      SurvivorsMembers(outs[1..], c);
      assert outs == [outs[0]] + outs[1..];
    }
  }

  /** Without an uncaught error the screener returns exactly the survivors,
      in encounter order; with one it does not return a list. */
  lemma {:induction false} ScreenOk(outs: seq<Outcome>)
    ensures Screen(outs).Ok? <==> forall i :: 0 <= i < |outs| ==> !Fatal(outs[i])
    ensures Screen(outs).Ok? ==> Screen(outs).value == Survivors(outs)
    decreases |outs|
  {
    if outs != [] {
      var init := outs[..|outs| - 1];
      ScreenOk(init);
      SurvivorsAppend(init, Last(outs));
      assert init + [Last(outs)] == outs;
      assert forall i :: 0 <= i < |init| ==> init[i] == outs[i];
    }
  }

  /** The error the screener ends with is the first uncaught one. */
  lemma {:induction false} ScreenErr(outs: seq<Outcome>, i: nat)
    requires i < |outs| && Fatal(outs[i])
    requires forall j :: 0 <= j < i ==> !Fatal(outs[j])
    ensures Screen(outs) == Err(outs[i].error)
    decreases |outs|
  {
    var init := outs[..|outs| - 1];
    if i < |outs| - 1 {
      assert init[i] == outs[i];
      ScreenErr(init, i);
    } else {
      ScreenOk(init);
      assert forall j :: 0 <= j < |init| ==> init[j] == outs[j];
    }
  }

  /** Once an uncaught error has happened, later outcomes change nothing. */
  lemma {:induction false} ScreenSticks(outs: seq<Outcome>, more: seq<Outcome>)
    requires outs <= more && Screen(outs).Err?
    ensures Screen(more) == Screen(outs)
    decreases |more|
  {
    if |more| > |outs| {
      var init := more[..|more| - 1];
      assert outs <= init;
      ScreenSticks(outs, init);
    } else {
      assert outs == more;
    }
  }

  /** The lists concatenated in order. */
  function Flatten(hss: seq<seq<Hit>>): seq<Hit>
  {
    if hss == [] then [] else Flatten(hss[..|hss| - 1]) + Last(hss)
  }

  lemma {:induction false} FlattenPrefix(hss: seq<seq<Hit>>, m: nat)
    requires m <= |hss|
    ensures Flatten(hss[..m]) <= Flatten(hss)
    decreases |hss| - m
  {
    if m < |hss| {
      FlattenPrefix(hss, m + 1);
      assert hss[..m + 1][..m] == hss[..m];
    } else {
      assert hss[..m] == hss;
    }
  }

  /** The search answers for every exchange of `ExchangeList`, in order. */
  function HitLists(search: string -> seq<Hit>): (hss: seq<seq<Hit>>)
    ensures |hss| == |ExchangeList|
  {
    seq(|ExchangeList|, k requires 0 <= k < |ExchangeList| => search(ExchangeList[k]))
  }

  /** What `analyzer()` gives for one hit. */
  function Assess(source: Hit -> PageSource, refDay: int, fuel: nat, h: Hit): Outcome
  {
    AsColumns(History(source(h), DefaultSize, refDay, fuel))
  }

  function Outcomes(source: Hit -> PageSource, refDay: int, fuel: nat, hs: seq<Hit>): (outs: seq<Outcome>)
    ensures |outs| == |hs|
  {
    seq(|hs|, i requires 0 <= i < |hs| => Assess(source, refDay, fuel, hs[i]))
  }

  lemma OutcomesSnoc(source: Hit -> PageSource, refDay: int, fuel: nat, hs: seq<Hit>, h: Hit)
    ensures Outcomes(source, refDay, fuel, hs + [h])
         == Outcomes(source, refDay, fuel, hs) + [Assess(source, refDay, fuel, h)]
  {
  }

  lemma OutcomesPrefix(source: Hit -> PageSource, refDay: int, fuel: nat, hs: seq<Hit>, more: seq<Hit>)
    requires hs <= more
    ensures Outcomes(source, refDay, fuel, hs) <= Outcomes(source, refDay, fuel, more)
  {
  }

  /** One step of the screening loop, when no uncaught error has happened. */
  lemma ScreenSnoc(outs: seq<Outcome>, o: Outcome, cs: seq<Columns>)
    requires Screen(outs) == Ok(cs)
    ensures Screen(outs + [o]) == match o
      case Ok(c) => Ok(cs + [c])
      case Err(e) => if e == NoMoreData then Ok(cs) else Err(e)
  {
    assert (outs + [o])[..|outs|] == outs;
  }

  /** An uncaught error at hit `j` of exchange `k` is the screener's answer. */
  lemma FatalEndsSearch(source: Hit -> PageSource, refDay: int, fuel: nat, hss: seq<seq<Hit>>,
                        k: nat, j: nat, prefix: seq<Hit>)
    requires k < |hss| && j < |hss[k]|
    requires prefix == Flatten(hss[..k]) + hss[k][..j + 1]
    requires Screen(Outcomes(source, refDay, fuel, prefix)).Err?
    ensures Screen(Outcomes(source, refDay, fuel, Flatten(hss)))
         == Screen(Outcomes(source, refDay, fuel, prefix))
  {
    FlattenPrefix(hss, k + 1);
    assert hss[..k + 1][..k] == hss[..k];
    assert Flatten(hss[..k + 1]) == Flatten(hss[..k]) + hss[k];
    assert prefix <= Flatten(hss);
    OutcomesPrefix(source, refDay, fuel, prefix, Flatten(hss));
    ScreenSticks(Outcomes(source, refDay, fuel, prefix), Outcomes(source, refDay, fuel, Flatten(hss)));
  }

  /** `Explorer.cond_search_api_call`: for every exchange and every hit of
      its search, the hit's series is assembled; hits whose assembly raised
      `NoMoreData` are skipped and the others kept in encounter order. */
  method CondSearch(search: string -> seq<Hit>, source: Hit -> PageSource, refDay: int, fuel: nat)
    returns (r: Result<seq<Columns>, Error>)
    ensures r == Screen(Outcomes(source, refDay, fuel, Flatten(HitLists(search))))
  {
    var analyzers: seq<Columns> := [];
    ghost var hss := HitLists(search);
    ghost var seen: seq<Hit> := [];
    var k := 0;
    while k < |ExchangeList|
      invariant 0 <= k <= |ExchangeList|
      invariant seen == Flatten(hss[..k])
      invariant Screen(Outcomes(source, refDay, fuel, seen)) == Ok(analyzers)
    {
      var hits := search(ExchangeList[k]);
      assert hits == hss[k];
      var j := 0;
      assert seen + hits[..0] == seen;
      while j < |hits|
        invariant 0 <= j <= |hits|
        invariant Screen(Outcomes(source, refDay, fuel, seen + hits[..j])) == Ok(analyzers)
      {
        var out := Analyzer(source(hits[j]), DefaultSize, refDay, fuel);
        assert seen + hits[..j + 1] == (seen + hits[..j]) + [hits[j]];
        OutcomesSnoc(source, refDay, fuel, seen + hits[..j], hits[j]);
        ScreenSnoc(Outcomes(source, refDay, fuel, seen + hits[..j]), out, analyzers);
        if out.Err? && out.error != NoMoreData {
          FatalEndsSearch(source, refDay, fuel, hss, k, j, seen + hits[..j + 1]);
          return Err(out.error);
        }
        if out.Ok? {
          analyzers := analyzers + [out.value];
        }
        j := j + 1;
      }
      assert hss[..k + 1][..k] == hss[..k];
      assert Flatten(hss[..k + 1]) == Flatten(hss[..k]) + hss[k];
      assert hits[..|hits|] == hits;
      seen := seen + hits;
      k := k + 1;
    }
    assert hss[..k] == hss;
    r := Ok(analyzers);
  }
}
