/** The Sparda adapter: every line is one `;`-separated record of seven
    columns (quoting off), the first ten records are dropped whatever they
    hold, and each later record becomes a HomeBank record or an error, in
    input order. */
module Sparda {
  import opened Outcomes
  import opened Text
  import opened Calendar
  import opened Money
  import opened HomeBank
  import opened Streams

  /** Number of leading records dropped by the iterator. */
  const SkipRecords: nat := 10

  /** Number of columns of the intermediate row. */
  const ColumnCount: nat := 7

  /** A record as read from the CSV: every column as text. */
  datatype SpardaIR = SpardaIR(
    buchungstag: string,
    wertstellungstag: string,
    gegeniban: string,
    nameGegenkonto: string,
    verwendungszweck: string,
    umsatz: string,
    waehrung: string)

  /** The columns of a record in file order. */
  function Columns(ir: SpardaIR): seq<string>
  {
    [ir.buchungstag, ir.wertstellungstag, ir.gegeniban, ir.nameGegenkonto,
     ir.verwendungszweck, ir.umsatz, ir.waehrung]
  }

  /** Assigns the fields of one record to the columns by position. A record
      with fewer fields than columns is an error; extra fields are ignored. */
  function Deserialize(fields: seq<string>): (r: Result<SpardaIR>)
    ensures r.Ok? <==> |fields| >= ColumnCount
    ensures r.Ok? ==> Columns(r.value) == fields[..ColumnCount]
    ensures r.Err? ==> r.error == MissingFields(|fields|, ColumnCount)
  {
    if |fields| < ColumnCount then Err(MissingFields(|fields|, ColumnCount))
    else Ok(SpardaIR(fields[0], fields[1], fields[2], fields[3], fields[4], fields[5], fields[6]))
  }

  /** A Sparda transaction: both dates parsed, the turnover as an amount in
      euro, the currency column kept as text. */
  datatype Sparda = Sparda(
    buchungstag: NaiveDate,
    wertstellungstag: NaiveDate,
    gegeniban: string,
    nameGegenkonto: string,
    verwendungszweck: string,
    umsatz: Amount,
    waehrung: string)

  /** `s` without its leading `c` characters. */
  function TrimStart(s: string, c: char): (r: string)
    ensures |r| <= |s| && r == s[|s| - |r|..]
    ensures forall k :: 0 <= k < |s| - |r| ==> s[k] == c
    ensures r != [] ==> r[0] != c
  {
    if s != [] && s[0] == c then TrimStart(s[1..], c) else s
  }

  /** `s` without its trailing `c` characters. */
  function TrimEnd(s: string, c: char): (r: string)
    ensures |r| <= |s| && r == s[..|r|]
    ensures forall k :: |r| <= k < |s| ==> s[k] == c
    ensures r != [] ==> r[|r| - 1] != c
  {
    if s != [] && s[|s| - 1] == c then TrimEnd(s[..|s| - 1], c) else s
  }

  /** `s` without its leading and trailing `c` characters. */
  function TrimMatches(s: string, c: char): string
  {
    TrimEnd(TrimStart(s, c), c)
  }

  /** Trimming removes a run of `c` from each end and nothing else: the
      result is a contiguous slice of `s`, everything before and after it is
      `c`, and it neither starts nor ends with `c`. Interior `c` stay. */
  lemma TrimMatchesSlice(s: string, c: char) returns (i: nat, j: nat)
    ensures i <= j <= |s| && TrimMatches(s, c) == s[i..j]
    ensures forall k :: 0 <= k < i ==> s[k] == c
    ensures forall k :: j <= k < |s| ==> s[k] == c
    ensures var r := TrimMatches(s, c); r != [] ==> r[0] != c && r[|r| - 1] != c
  {
    var t := TrimStart(s, c);
    var r := TrimEnd(t, c);
    i := |s| - |t|;
    j := i + |r|;
    assert t == s[i..];
    assert r == s[i..j] by {
      assert r == t[..|r|];
    }
    forall k | j <= k < |s|
      ensures s[k] == c
    {
      assert s[k] == t[k - i];
    }
    TrimEnds(s, c);
  }

  /** The trimmed text neither starts nor ends with the trimmed character. */
  lemma TrimEnds(s: string, c: char)
    ensures var r := TrimMatches(s, c); r != [] ==> r[0] != c && r[|r| - 1] != c
  {
    var t := TrimStart(s, c);
    var r := TrimEnd(t, c);
    if r != [] {
      assert r[0] == t[0];
    }
  }

  /** Trimming twice trims no more than trimming once. */
  lemma TrimMatchesIdempotent(s: string, c: char)
    ensures TrimMatches(TrimMatches(s, c), c) == TrimMatches(s, c)
  {
    var r := TrimMatches(s, c);
    var _, _ := TrimMatchesSlice(s, c);
    assert TrimStart(r, c) == r;
    assert TrimEnd(r, c) == r;
  }

  /** Converts a record, checking buchungstag, wertstellungstag and umsatz in
      that order and stopping at the first that does not parse; both date
      errors carry the message of the buchungstag column. The dates are
      read as `%Y-%m-%d`; `parseEur` reads the turnover, with its surrounding
      double quotes removed, as an amount in euro. The currency column is kept
      verbatim and not consulted. */
  function TryFrom(ir: SpardaIR, parseEur: AmountParser): (r: Result<Sparda>)
    ensures r.Ok? <==>
      && ParseYearMonthDay(ir.buchungstag).Some? && ParseYearMonthDay(ir.wertstellungstag).Some?
      && parseEur(TrimMatches(ir.umsatz, '"')).Some?
    ensures r.Ok? ==>
      && Some(r.value.buchungstag) == ParseYearMonthDay(ir.buchungstag)
      && Some(r.value.wertstellungstag) == ParseYearMonthDay(ir.wertstellungstag)
      && Some(r.value.umsatz) == parseEur(TrimMatches(ir.umsatz, '"'))
      && r.value.gegeniban == ir.gegeniban && r.value.nameGegenkonto == ir.nameGegenkonto
      && r.value.verwendungszweck == ir.verwendungszweck && r.value.waehrung == ir.waehrung
    ensures (ParseYearMonthDay(ir.buchungstag).None? || ParseYearMonthDay(ir.wertstellungstag).None?) ==>
      r == Err(BadDate("buchungstag"))
    ensures (ParseYearMonthDay(ir.buchungstag).Some? && ParseYearMonthDay(ir.wertstellungstag).Some?
             && parseEur(TrimMatches(ir.umsatz, '"')).None?) ==> r == Err(BadAmount)
  {
    var buchungstag := ParseYearMonthDay(ir.buchungstag);
    var wertstellungstag := ParseYearMonthDay(ir.wertstellungstag);
    var umsatz := parseEur(TrimMatches(ir.umsatz, '"'));
    if buchungstag.None? then Err(BadDate("buchungstag"))
    else if wertstellungstag.None? then Err(BadDate("buchungstag"))
    else if umsatz.None? then Err(BadAmount)
    else
      Ok(Sparda(buchungstag.value, wertstellungstag.value, ir.gegeniban, ir.nameGegenkonto,
                ir.verwendungszweck, umsatz.value, ir.waehrung))
  }

  /** The currency column never decides anything: changing it changes only
      the stored currency text of a converted record. */
  lemma CurrencyIgnored(ir: SpardaIR, w: string, parseEur: AmountParser)
    ensures var a, b := TryFrom(ir, parseEur), TryFrom(ir.(waehrung := w), parseEur);
      && a.Ok? == b.Ok?
      && (a.Err? ==> a == b)
      && (a.Ok? ==> b.value == a.value.(waehrung := w))
  {
  }

  /** Quotes around the turnover do not matter: the record converts as the
      record whose turnover is the trimmed text. */
  lemma QuotedAmount(ir: SpardaIR, parseEur: AmountParser)
    ensures TryFrom(ir, parseEur) == TryFrom(ir.(umsatz := TrimMatches(ir.umsatz, '"')), parseEur)
  {
    TrimMatchesIdempotent(ir.umsatz, '"');
  }

  /** The HomeBank record of a transaction. */
  function ToRecord(s: Sparda): Record
  {
    Record(s.buchungstag, ElectronicPayment, s.gegeniban, s.nameGegenkonto,
           s.verwendungszweck, s.umsatz, "", [])
  }

  /** A converted transaction is written as the line: booking date, payment
      code 8, gegeniban as info, name of the counter account as payee,
      verwendungszweck as memo, the rendered turnover, an empty category and
      empty tags. */
  lemma RecordLine(s: Sparda, render: AmountRenderer)
    requires PlainField(s.gegeniban) && PlainField(s.nameGegenkonto) && PlainField(s.verwendungszweck)
    requires PlainField(render(s.umsatz))
    ensures var line := Line(ToIR(ToRecord(s), render));
      Split(line[..|line| - 1], ';')
      == [FormatDate(s.buchungstag), "8", s.gegeniban, s.nameGegenkonto,
          s.verwendungszweck, render(s.umsatz), "", ""]
  {
    LineLayout(ToRecord(s), render);
    assert Decimal(8) == "8";
  }

  /** One record of input: its `;`-separated fields, positionally assigned,
      converted and mapped to a HomeBank record. */
  function ParseRow(line: string, parseEur: AmountParser): (r: Result<Record>)
    ensures Occurrences(line, ';') + 1 < ColumnCount ==>
      r == Err(MissingFields(Occurrences(line, ';') + 1, ColumnCount))
  {
    match Deserialize(Split(line, ';'))
    case Err(e) => Err(e)
    case Ok(ir) =>
      match TryFrom(ir, parseEur)
      case Err(e) => Err(e)
      case Ok(s) => Ok(ToRecord(s))
  }

  /** A record written with `;` between its columns reads back as those
      columns: it yields the mapped conversion of its intermediate row. */
  lemma RowFromColumns(ir: SpardaIR, parseEur: AmountParser)
    requires forall i :: 0 <= i < |Columns(ir)| ==> ';' !in Columns(ir)[i]
    ensures var r, t := ParseRow(Join(Columns(ir), ';'), parseEur), TryFrom(ir, parseEur);
      && r.Ok? == t.Ok?
      && (t.Ok? ==> r.value == ToRecord(t.value))
      && (t.Err? ==> r.error == t.error)
  {
    SplitJoin(Columns(ir), ';');
    assert Columns(ir)[..ColumnCount] == Columns(ir);
  }

  /** The conversion applied to every record after the skipped ones. */
  function RowReader(parseEur: AmountParser): string -> Result<Record>
  {
    line => ParseRow(line, parseEur)
  }

  /** The whole item sequence of an input: the first ten records are dropped,
      shorter input yields no items, and every later record yields exactly one
      item. */
  function Items(lines: seq<string>, parseEur: AmountParser): (r: seq<Result<Record>>)
    ensures |lines| <= SkipRecords ==> r == []
    ensures |lines| > SkipRecords ==> |r| == |lines| - SkipRecords
  {
    Map(RowReader(parseEur), lines[Min(SkipRecords, |lines|)..])
  }

  /** The i-th item is the conversion of record 10 + i, whatever the items
      before it are: an error item does not end the sequence. */
  lemma ItemsAt(lines: seq<string>, parseEur: AmountParser, i: nat)
    requires SkipRecords + i < |lines|
    ensures Items(lines, parseEur)[i] == ParseRow(lines[SkipRecords + i], parseEur)
  {
    var rest := lines[SkipRecords..];
    MapAt(RowReader(parseEur), rest, i);
    assert rest[i] == lines[SkipRecords + i];
  }

  /** Items keep input order: more input after the skipped records appends
      the items of the added records. */
  lemma ItemsAppend(lines: seq<string>, more: seq<string>, parseEur: AmountParser)
    requires |lines| >= SkipRecords
    ensures Items(lines + more, parseEur) == Items(lines, parseEur) + Map(RowReader(parseEur), more)
  {
    assert (lines + more)[SkipRecords..] == lines[SkipRecords..] + more;
    MapAppend(RowReader(parseEur), lines[SkipRecords..], more);
  }

  /** The dropped records play no part, even when they do not parse. */
  lemma HeaderIgnored(head: seq<string>, head': seq<string>, body: seq<string>, parseEur: AmountParser)
    requires |head| == SkipRecords && |head'| == SkipRecords
    ensures Items(head + body, parseEur) == Items(head' + body, parseEur) == Map(RowReader(parseEur), body)
  {
    assert (head + body)[SkipRecords..] == body;
    assert (head' + body)[SkipRecords..] == body;
  }

  /** The iterator over an input's records: a CSV record stream, positioned
      at `pos`, behind a skip adapter that still has `skip` records to drop;
      `convert` is the conversion applied to each record. */
  class TeoIter {
    const lines: seq<string>
    const convert: string -> Result<Record>
    var skip: nat
    var pos: nat

    predicate Valid()
      reads this
    {
      pos <= |lines|
    }

    /** Where the next yielded item comes from. */
    function Start(): nat
      reads this
    {
      Min(pos + skip, |lines|)
    }

    /** The items still to come. */
    function Remaining(): seq<Result<Record>>
      reads this
      requires Valid()
    {
      Map(convert, lines[Start()..])
    }

    /** Wraps the record stream in a skip adapter for ten records; nothing is
        read yet. */
    constructor (lines: seq<string>, parseEur: AmountParser)
      ensures this.lines == lines && convert == RowReader(parseEur)
      ensures Valid() && skip == SkipRecords && pos == 0
      ensures Remaining() == Items(lines, parseEur)
    {
      this.lines := lines;
      convert := RowReader(parseEur);
      skip := SkipRecords;
      pos := 0;
    }

    /** The next item. The first call reads and drops the pending records
        (the record stream's `nth`), then every call reads one record and
        yields its conversion, error or not; `None` at the end of input. */
    method Next() returns (item: Option<Result<Record>>)
      requires Valid()
      modifies this
      ensures Valid() && skip == 0
      ensures old(Start()) < |lines| ==>
        item == Some(convert(lines[old(Start())])) && pos == old(Start()) + 1
      ensures old(Start()) == |lines| ==> item == Option.None && pos == |lines|
      ensures old(Remaining()) == (if item.Some? then [item.value] + Remaining() else [])
    {
      ghost var start := Start();
      var n := skip;
      skip := 0;
      while n > 0 && pos < |lines|
        invariant pos <= |lines| && skip == 0
        invariant Min(pos + n, |lines|) == start
      {
        pos := pos + 1;
        n := n - 1;
      }
      assert pos == start;
      if pos == |lines| {
        item := Option.None;
      } else {
        item := Some(convert(lines[pos]));
        assert lines[pos..][1..] == lines[pos + 1..];
        pos := pos + 1;
      }
    }

    /** Drains the iterator: the collected items are exactly the items that
        were still to come. */
    method Collect() returns (items: seq<Result<Record>>)
      requires Valid()
      modifies this
      ensures Valid() && Start() == |lines|
      ensures items == old(Remaining())
    {
      ghost var all := Remaining();
      items := [];
      while true
        invariant Valid()
        invariant all == items + Remaining()
        decreases |lines| - pos + skip
      {
        ghost var rest := Remaining();
        var item := Next();
        if item.None? {
          assert rest == [];
          return;
        }
        assert rest == [item.value] + Remaining();
        items := items + [item.value];
      }
    }
  }
}
