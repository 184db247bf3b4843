/** The Postbank adapter: a fixed number of raw lines is discarded, every
    remaining line is one `;`-separated row of eighteen columns (quoting off),
    and each row becomes a Postbank transaction or an error, in input order. */
module Postbank {
  import opened Outcomes
  import opened Text
  import opened Calendar
  import opened Money
  import opened HomeBank
  import opened Streams

  /** The construction loop runs for 0..=7, so eight raw lines are discarded. */
  const SkipLines: nat := 8

  /** Number of columns of the intermediate row. */
  const ColumnCount: nat := 18

  /** A row as read from the CSV: every column as text. */
  datatype PostbankIR = PostbankIR(
    buchungstag: string,
    wert: string,
    umsatzart: string,
    auftraggeber: string,
    verwendungszweck: string,
    iban: string,
    bic: string,
    kundenreferenz: string,
    mandatsreferenz: string,
    glaeubigerId: string,
    fremdeGebuehren: string,
    betrag: string,
    abweichenderEmpfaenger: string,
    countAuftraege: string,
    countSchecks: string,
    soll: string,
    haben: string,
    waehrung: string)

  /** The columns of a row in file order. */
  function Columns(ir: PostbankIR): seq<string>
  {
    [ir.buchungstag, ir.wert, ir.umsatzart, ir.auftraggeber, ir.verwendungszweck,
     ir.iban, ir.bic, ir.kundenreferenz, ir.mandatsreferenz, ir.glaeubigerId,
     ir.fremdeGebuehren, ir.betrag, ir.abweichenderEmpfaenger, ir.countAuftraege,
     ir.countSchecks, ir.soll, ir.haben, ir.waehrung]
  }

  /** Assigns the fields of one record to the columns by position. A record
      with fewer fields than columns is an error; extra fields are ignored. */
  function Deserialize(fields: seq<string>): (r: Result<PostbankIR>)
    ensures r.Ok? <==> |fields| >= ColumnCount
    ensures r.Ok? ==> Columns(r.value) == fields[..ColumnCount]
    ensures r.Err? ==> r.error == MissingFields(|fields|, ColumnCount)
  {
    if |fields| < ColumnCount then Err(MissingFields(|fields|, ColumnCount))
    else
      Ok(PostbankIR(fields[0], fields[1], fields[2], fields[3], fields[4], fields[5],
                    fields[6], fields[7], fields[8], fields[9], fields[10], fields[11],
                    fields[12], fields[13], fields[14], fields[15], fields[16], fields[17]))
  }

  /** A Postbank transaction: both dates and both money columns parsed, every
      other column kept as text. */
  datatype Postbank = Postbank(
    buchungstag: NaiveDate,
    wert: NaiveDate,
    umsatzart: string,
    auftraggeber: string,
    verwendungszweck: string,
    iban: string,
    bic: string,
    kundenreferenz: string,
    mandatsreferenz: string,
    glaeubigerId: string,
    fremdeGebuehren: string,
    betrag: Amount,
    abweichenderEmpfaenger: string,
    countAuftraege: string,
    countSchecks: string,
    soll: string,
    haben: string,
    waehrung: Amount)

  /** The text columns of a transaction, in file order. */
  function TextColumns(p: Postbank): seq<string>
  {
    [p.umsatzart, p.auftraggeber, p.verwendungszweck, p.iban, p.bic, p.kundenreferenz,
     p.mandatsreferenz, p.glaeubigerId, p.fremdeGebuehren, p.abweichenderEmpfaenger,
     p.countAuftraege, p.countSchecks, p.soll, p.haben]
  }

  /** The same columns of the intermediate row. */
  function TextColumnsIR(ir: PostbankIR): seq<string>
  {
    [ir.umsatzart, ir.auftraggeber, ir.verwendungszweck, ir.iban, ir.bic, ir.kundenreferenz,
     ir.mandatsreferenz, ir.glaeubigerId, ir.fremdeGebuehren, ir.abweichenderEmpfaenger,
     ir.countAuftraege, ir.countSchecks, ir.soll, ir.haben]
  }

  /** Converts a row, checking buchungstag, wert, betrag and waehrung in that
      order and stopping at the first that does not parse; a date error names
      its column, both money errors are the same. `parse` reads a
      comma-decimal amount with a leading minus sign and no thousands
      separator. The row converts exactly when all four parse; the dates and
      amounts are the parsed values and every other column is kept verbatim. */
  function TryFrom(ir: PostbankIR, parse: AmountParser): (r: Result<Postbank>)
    ensures r.Ok? <==>
      && ParseDayMonthYear(ir.buchungstag).Some? && ParseDayMonthYear(ir.wert).Some?
      && parse(ir.betrag).Some? && parse(ir.waehrung).Some?
    ensures r.Ok? ==>
      && Some(r.value.buchungstag) == ParseDayMonthYear(ir.buchungstag)
      && Some(r.value.wert) == ParseDayMonthYear(ir.wert)
      && Some(r.value.betrag) == parse(ir.betrag)
      && Some(r.value.waehrung) == parse(ir.waehrung)
      && TextColumns(r.value) == TextColumnsIR(ir)
    ensures ParseDayMonthYear(ir.buchungstag).None? ==> r == Err(BadDate("buchungstag"))
    ensures ParseDayMonthYear(ir.buchungstag).Some? && ParseDayMonthYear(ir.wert).None? ==>
      r == Err(BadDate("wert"))
    ensures (ParseDayMonthYear(ir.buchungstag).Some? && ParseDayMonthYear(ir.wert).Some?
             && (parse(ir.betrag).None? || parse(ir.waehrung).None?)) ==> r == Err(BadAmount)
  {
    var buchungstag := ParseDayMonthYear(ir.buchungstag);
    var wert := ParseDayMonthYear(ir.wert);
    var betrag := parse(ir.betrag);
    var waehrung := parse(ir.waehrung);
    if buchungstag.None? then Err(BadDate("buchungstag"))
    else if wert.None? then Err(BadDate("wert"))
    else if betrag.None? then Err(BadAmount)
    else if waehrung.None? then Err(BadAmount)
    else
      Ok(Postbank(buchungstag.value, wert.value, ir.umsatzart, ir.auftraggeber, ir.verwendungszweck,
                  ir.iban, ir.bic, ir.kundenreferenz, ir.mandatsreferenz, ir.glaeubigerId,
                  ir.fremdeGebuehren, betrag.value, ir.abweichenderEmpfaenger, ir.countAuftraege,
                  ir.countSchecks, ir.soll, ir.haben, waehrung.value))
  }

  /** The HomeBank record of a transaction. */
  function ToRecord(p: Postbank): Record
  {
    Record(p.buchungstag, ElectronicPayment, p.kundenreferenz, p.auftraggeber,
           p.verwendungszweck, p.betrag, "", [])
  }

  /** A converted transaction is written as the line: booking date, payment
      code 8, kundenreferenz as info, auftraggeber as payee, verwendungszweck
      as memo, the rendered betrag, an empty category and empty tags. */
  lemma RecordLine(p: Postbank, render: AmountRenderer)
    requires PlainField(p.kundenreferenz) && PlainField(p.auftraggeber) && PlainField(p.verwendungszweck)
    requires PlainField(render(p.betrag))
    ensures var line := Line(ToIR(ToRecord(p), render));
      Split(line[..|line| - 1], ';')
      == [FormatDate(p.buchungstag), "8", p.kundenreferenz, p.auftraggeber,
          p.verwendungszweck, render(p.betrag), "", ""]
  {
    LineLayout(ToRecord(p), render);
    assert Decimal(8) == "8";
  }

  /** One line of input: its `;`-separated fields, positionally assigned and
      converted. */
  function ParseRow(line: string, parse: AmountParser): (r: Result<Postbank>)
    ensures Occurrences(line, ';') + 1 < ColumnCount ==>
      r == Err(MissingFields(Occurrences(line, ';') + 1, ColumnCount))
  {
    match Deserialize(Split(line, ';'))
    case Ok(ir) => TryFrom(ir, parse)
    case Err(e) => Err(e)
  }

  /** A row written with `;` between its columns reads back as those columns:
      the line converts exactly as its intermediate row does. */
  lemma RowFromColumns(ir: PostbankIR, parse: AmountParser)
    requires forall i :: 0 <= i < |Columns(ir)| ==> ';' !in Columns(ir)[i]
    ensures ParseRow(Join(Columns(ir), ';'), parse) == TryFrom(ir, parse)
  {
    SplitJoin(Columns(ir), ';');
    assert Columns(ir)[..ColumnCount] == Columns(ir);
  }

  /** The conversion applied to every line after the skipped ones. */
  function RowReader(parse: AmountParser): string -> Result<Postbank>
  {
    line => ParseRow(line, parse)
  }

  /** The whole item sequence of an input: the first eight lines are dropped,
      shorter input yields no items, and every later line yields exactly one
      item. */
  function Items(lines: seq<string>, parse: AmountParser): (r: seq<Result<Postbank>>)
    ensures |lines| <= SkipLines ==> r == []
    ensures |lines| > SkipLines ==> |r| == |lines| - SkipLines
  {
    Map(RowReader(parse), lines[Min(SkipLines, |lines|)..])
  }

  /** The i-th item is the conversion of line 8 + i, whatever the items
      before it are: an error item does not end the sequence. */
  lemma ItemsAt(lines: seq<string>, parse: AmountParser, i: nat)
    requires SkipLines + i < |lines|
    ensures Items(lines, parse)[i] == ParseRow(lines[SkipLines + i], parse)
  {
    MapAt(RowReader(parse), lines[SkipLines..], i);
  }

  /** Items keep input order: more input after the skipped lines appends
      the items of the added lines. */
  lemma ItemsAppend(lines: seq<string>, more: seq<string>, parse: AmountParser)
    requires |lines| >= SkipLines
    ensures Items(lines + more, parse) == Items(lines, parse) + Map(RowReader(parse), more)
  {
    assert (lines + more)[SkipLines..] == lines[SkipLines..] + more;
    MapAppend(RowReader(parse), lines[SkipLines..], more);
  }

  /** The discarded lines play no part: whatever the first eight lines hold,
      the items are those of the lines after them. */
  lemma {:induction false} HeaderIgnored(head: seq<string>, head': seq<string>, body: seq<string>, parse: AmountParser)
    requires |head| == SkipLines && |head'| == SkipLines
    ensures Items(head + body, parse) == Items(head' + body, parse) == Map(RowReader(parse), body)
  {
    assert (head + body)[SkipLines..] == body;
    assert (head' + body)[SkipLines..] == body;
  }

  /** The iterator over an input's rows. The input is held as its lines, the
      cursor is the index of the next line to read, and `convert` is the
      conversion applied to each row. */
  class PostbankIter {
    const lines: seq<string>
    const convert: string -> Result<Postbank>
    var pos: nat

    predicate Valid()
      reads this
    {
      Min(SkipLines, |lines|) <= pos <= |lines|
    }

    /** The items still to come. */
    function Remaining(): seq<Result<Postbank>>
      reads this
      requires Valid()
    {
      Map(convert, lines[pos..])
    }

    /** Reads and discards eight lines, or all lines if there are fewer;
        running out of input while discarding is not an error. */
    constructor (lines: seq<string>, parse: AmountParser)
      ensures this.lines == lines && convert == RowReader(parse)
      ensures Valid() && pos == Min(SkipLines, |lines|)
      ensures Remaining() == Items(lines, parse)
    {
      var skipped := 0;
      for i := 0 to SkipLines
        invariant skipped == Min(i, |lines|)
      {
        if skipped < |lines| {
          skipped := skipped + 1;
        }
      }
      this.lines := lines;
      convert := RowReader(parse);
      pos := skipped;
    }

    /** The next item: `None` at the end of the input, otherwise the
        conversion of the next line, error or not. */
    method Next() returns (item: Option<Result<Postbank>>)
      requires Valid()
      modifies this
      ensures Valid()
      ensures old(pos) == |lines| ==> item == Option.None && pos == old(pos)
      ensures old(pos) < |lines| ==> item == Some(convert(lines[old(pos)])) && pos == old(pos) + 1
      ensures old(Remaining()) == (if item.Some? then [item.value] + Remaining() else [])
    {
      if pos == |lines| {
        item := Option.None;
      } else {
        item := Some(convert(lines[pos]));
        assert lines[pos..][1..] == lines[pos + 1..];
        pos := pos + 1;
      }
    }

    /** Drains the iterator: the collected items are exactly the items that
        were still to come. */
    method Collect() returns (items: seq<Result<Postbank>>)
      requires Valid()
      modifies this
      ensures Valid() && pos == |lines|
      ensures items == old(Remaining())
    {
      ghost var all := Remaining();
      items := [];
      while true
        invariant Valid()
        invariant all == items + Remaining()
        decreases |lines| - pos
      {
        ghost var rest := Remaining();
        var item := Next();
        if item.None? {
          assert rest == [];
          return;
        }
        assert rest == [item.value] + Remaining();
        items := items + [item.value];
      }
    }
  }
}

/** The adapter's example from its unit test: eight empty lines, then one
    eighteen-column row. */
module PostbankExample {
  import opened Outcomes
  import opened Text
  import opened Calendar
  import opened Money
  import opened HomeBank
  import opened Postbank

  lemma YearDigits()
    ensures AllDigits("2024") && Value("2024") == 2024
  {
    assert "2"[..0] == "";
    assert Value("2") == 2;
    assert "20"[..1] == "2";
    assert Value("20") == 20;
    assert "202"[..2] == "20";
    assert Value("202") == 202;
    assert "2024"[..3] == "202" && "2024"[3] == '4';
    assert Value("2024") == 10 * Value("202") + DigitValue('4');
  }

  lemma DateJoin()
    ensures Join(["7", "3", "2024"], '.') == "7.3.2024"
  {
    JoinThree("7", "3", "2024", '.');
    var joined := "7" + ['.'] + "3" + ['.'] + "2024";
    assert |joined| == 8;
    assert forall i :: 0 <= i < 8 ==> joined[i] == "7.3.2024"[i];
  }

  lemma DateSplit()
    ensures Split("7.3.2024", '.') == ["7", "3", "2024"]
  {
    DateJoin();
    SplitJoin(["7", "3", "2024"], '.');
  }

  /** Both dates of the example row. */
  lemma ExampleDate()
    ensures ParseDayMonthYear("7.3.2024") == Some(Date(2024, 3, 7))
  {
    DateSplit();
    YearDigits();
    assert "7"[..0] == "" && "3"[..0] == "";
    assert Valid(Date(2024, 3, 7));
  }

  function ExampleRow(): PostbankIR
  {
    PostbankIR("7.3.2024", "7.3.2024", "SEPA Lastschrift", "Woopsie", "Doopsie", "DE123", "",
               "ABCD", "EFG", "DE123", "", "-25,88", "", "", "", "-25,88", "", "EUR")
  }

  lemma ExampleColumnsPlain()
    ensures forall i :: 0 <= i < |Columns(ExampleRow())| ==> ';' !in Columns(ExampleRow())[i]
  {
    var cols := Columns(ExampleRow());
    assert ';' !in "7.3.2024" && ';' !in "SEPA Lastschrift" && ';' !in "Woopsie" && ';' !in "Doopsie";
    assert ';' !in "DE123" && ';' !in "ABCD" && ';' !in "EFG" && ';' !in "-25,88" && ';' !in "EUR";
    forall i | 0 <= i < |cols|
      ensures ';' !in cols[i]
    {
      assert cols[i] in {"7.3.2024", "SEPA Lastschrift", "Woopsie", "Doopsie", "DE123", "", "ABCD", "EFG", "-25,88", "EUR"};
    }
  }

  /** The example row, written with `;` between its columns, converts as
      its columns do: no column holds a `;`. */
  lemma ExampleLine(parse: AmountParser)
    ensures ParseRow(Join(Columns(ExampleRow()), ';'), parse) == TryFrom(ExampleRow(), parse)
  {
    ExampleColumnsPlain();
    RowFromColumns(ExampleRow(), parse);
  }

  /** The example row converts, booked on 7 March 2024, when the money parser
      accepts both money columns. */
  lemma ExampleConverts(parse: AmountParser)
    requires parse("-25,88").Some? && parse("EUR").Some?
    ensures var t := TryFrom(ExampleRow(), parse);
      && t.Ok? && t.value.buchungstag == Date(2024, 3, 7)
      && t.value.auftraggeber == "Woopsie" && t.value.verwendungszweck == "Doopsie"
      && Some(t.value.betrag) == parse("-25,88")
  {
    ExampleDate();
  }

  /** The input of eight newlines followed by the row yields exactly one
      item, and it is a transaction booked on 7 March 2024 with payee Woopsie,
      memo Doopsie and the amount read from `-25,88`, provided the money
      parser accepts the two money columns. */
  lemma ToIter(parse: AmountParser)
    requires parse("-25,88").Some? && parse("EUR").Some?
    ensures var items := Items(["", "", "", "", "", "", "", "", Join(Columns(ExampleRow()), ';')], parse);
      && |items| == 1 && items[0].Ok?
      && var rec := ToRecord(items[0].value);
      && rec.date == Date(2024, 3, 7) && rec.payment == ElectronicPayment
      && rec.payee == "Woopsie" && rec.memo == "Doopsie"
      && Some(rec.amount) == parse("-25,88")
  {
    ExampleLine(parse);
    ExampleConverts(parse);
    ItemsAt(["", "", "", "", "", "", "", "", Join(Columns(ExampleRow()), ';')], parse, 0);
  }
}
