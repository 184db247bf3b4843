/** HomeBank's CSV transaction import format: the canonical record, its text
    form (one `;`-separated line of eight fields, no header line) and the
    writer that appends one such line per record. The column layout is the one
    of HomeBank's CSV import documentation (transaction format). */
module HomeBank {
  import opened Outcomes
  import opened Text
  import opened Calendar
  import opened Money
  import opened Streams

  /** HomeBank's payment kinds; each is written as its small-integer code. */
  datatype Payment =
    | None
    | CreditCard
    | Check
    | Cash
    | BankTransfer  // internal transfers cannot be expressed in CSV and are imported as this
    | InternalTransfer
    | DebitCard
    | StandingOrder
    | ElectronicPayment
    | Deposit
    | FinancialInstitutionFee
    | DirectDebit

  /** The payment kind for a code, if the code is one. */
  function FromCode(c: int): (r: Option<Payment>)
    ensures r.Some? <==> 0 <= c <= 11
  {
    match c
    case 0 => Some(Payment.None)
    case 1 => Some(CreditCard)
    case 2 => Some(Check)
    case 3 => Some(Cash)
    case 4 => Some(BankTransfer)
    case 5 => Some(InternalTransfer)
    case 6 => Some(DebitCard)
    case 7 => Some(StandingOrder)
    case 8 => Some(ElectronicPayment)
    case 9 => Some(Deposit)
    case 10 => Some(FinancialInstitutionFee)
    case 11 => Some(DirectDebit)
    case _ => Outcomes.None
  }

  /** The declared code of a payment kind. Codes lie in 0..11 and `FromCode`
      takes every code back to its kind, so distinct kinds have distinct codes. */
  function Code(p: Payment): (c: nat)
    ensures c <= 11
    ensures FromCode(c) == Some(p)
  {
    match p
    case None => 0
    case CreditCard => 1
    case Check => 2
    case Cash => 3
    case BankTransfer => 4
    case InternalTransfer => 5
    case DebitCard => 6
    case StandingOrder => 7
    case ElectronicPayment => 8
    case Deposit => 9
    case FinancialInstitutionFee => 10
    case DirectDebit => 11
  }

  /** One transaction in canonical form. */
  datatype Record = Record(
    date: NaiveDate,
    payment: Payment,
    info: string,
    payee: string,
    memo: string,
    amount: Amount,
    category: string,
    tags: seq<string>)  // written separated by spaces

  /** The record with every field already in its text form. */
  datatype RecordIR = RecordIR(
    date: string,
    payment: nat,
    info: string,
    payee: string,
    memo: string,
    amount: string,
    category: string,
    tags: string)

  /** The tags field: the tags with one space between neighbours. */
  function JoinTags(tags: seq<string>): string
  {
    Join(tags, ' ')
  }

  /** Reads a tags field back: the empty field holds no tags. */
  function SplitTags(field: string): seq<string>
  {
    if field == "" then [] else Split(field, ' ')
  }

  /** Tags that survive the space-separated field: non-empty, no space inside. */
  predicate WellFormedTags(tags: seq<string>)
  {
    forall i :: 0 <= i < |tags| ==> tags[i] != "" && ' ' !in tags[i]
  }

  lemma {:induction false} JoinStartsWithFirst(parts: seq<string>, sep: char)
    requires |parts| >= 1
    ensures Join(parts, sep)[..|parts[0]|] == parts[0]
  {
    if |parts| > 1 {
      assert Join(parts, sep) == parts[0] + ([sep] + Join(parts[1..], sep));
    }
  }

  /** Splitting the tags field on spaces recovers the tags, whenever each tag
      is non-empty and holds no space. */
  lemma {:induction false} TagsRoundTrip(tags: seq<string>)
    requires WellFormedTags(tags)
    ensures SplitTags(JoinTags(tags)) == tags
  {
    if tags != [] {
      JoinStartsWithFirst(tags, ' ');
      assert JoinTags(tags) != "";
      SplitJoin(tags, ' ');
    }
  }

  /** An empty tag is not recoverable: it vanishes from the field. */
  lemma EmptyTagVanishes()
    ensures JoinTags([""]) == "" && SplitTags(JoinTags([""])) == []
  {
  }

  /** The record's fields in text form: the date as `%Y-%m-%d`, the payment as
      its code, the tags joined by one space, the other texts unchanged. */
  function ToIR(rec: Record, render: AmountRenderer): RecordIR
  {
    RecordIR(
      FormatDate(rec.date),
      Code(rec.payment),
      rec.info,
      rec.payee,
      rec.memo,
      render(rec.amount),
      rec.category,
      JoinTags(rec.tags))
  }

  /** What each text field of the converted record means: the date field reads
      back as the record's date (for four-digit years), the payment field is
      the payment's code, the tags field splits back into the tags (when they
      are well formed), and info, payee, memo and category are copied. */
  lemma ToIRMeaning(rec: Record, render: AmountRenderer)
    ensures var ir := ToIR(rec, render);
      && (0 <= rec.date.year <= 9999 ==> ParseYearMonthDay(ir.date) == Some(rec.date))
      && ir.payment <= 11 && FromCode(ir.payment) == Some(rec.payment)
      && (WellFormedTags(rec.tags) ==> SplitTags(ir.tags) == rec.tags)
      && ir.info == rec.info && ir.payee == rec.payee && ir.memo == rec.memo && ir.category == rec.category
      && ir.amount == render(rec.amount)
  {
    if 0 <= rec.date.year <= 9999 {
      FormatThenParse(rec.date);
    }
    if WellFormedTags(rec.tags) {
      TagsRoundTrip(rec.tags);
    }
  }

  /** The eight fields of a line, in HomeBank's column order. */
  function Fields(ir: RecordIR): seq<string>
  {
    [ir.date, Decimal(ir.payment), ir.info, ir.payee, ir.memo, ir.amount, ir.category, ir.tags]
  }

  /** One output line: the fields joined by `;` and ended by a newline. */
  function Line(ir: RecordIR): string
  {
    Join(Fields(ir), ';') + "\n"
  }

  /** A character absent from every part and distinct from the separator is
      absent from the join. */
  lemma {:induction false} JoinAvoids(parts: seq<string>, sep: char, c: char)
    requires c != sep
    requires forall i :: 0 <= i < |parts| ==> c !in parts[i]
    ensures c !in Join(parts, sep)
    decreases |parts|
  {
    if |parts| > 1 {
      JoinAvoids(parts[1..], sep, c);
    }
  }

  /** Free text that stays inside one field of one line. */
  predicate PlainField(s: string)
  {
    ';' !in s && '\n' !in s
  }

  /** A written record is exactly one line: its only newline is the last
      character, and splitting the rest on `;` gives the eight fields date,
      payment code, info, payee, memo, amount, category and tags, in that
      order, when no free-text field holds a `;` or a newline. */
  lemma {:induction false} LineLayout(rec: Record, render: AmountRenderer)
    requires PlainField(rec.info) && PlainField(rec.payee) && PlainField(rec.memo)
    requires PlainField(render(rec.amount)) && PlainField(rec.category)
    requires forall i :: 0 <= i < |rec.tags| ==> PlainField(rec.tags[i])
    ensures var line := Line(ToIR(rec, render));
      && |line| >= 1 && line[|line| - 1] == '\n' && '\n' !in line[..|line| - 1]
      && Split(line[..|line| - 1], ';')
         == [FormatDate(rec.date), Decimal(Code(rec.payment)), rec.info, rec.payee,
             rec.memo, render(rec.amount), rec.category, JoinTags(rec.tags)]
  {
    var ir := ToIR(rec, render);
    var fields := Fields(ir);
    DigitsHaveNo(Decimal(ir.payment), ';');
    DigitsHaveNo(Decimal(ir.payment), '\n');
    assert ';' !in ir.date && '\n' !in ir.date by {
      FormatDateLayout(rec.date);
    }
    JoinAvoids(rec.tags, ' ', ';');
    JoinAvoids(rec.tags, ' ', '\n');
    assert forall i :: 0 <= i < |fields| ==> PlainField(fields[i]);
    SplitJoin(fields, ';');
    JoinAvoids(fields, ';', '\n');
    var line := Line(ir);
    assert line[..|line| - 1] == Join(fields, ';');
  }

  /** The serialization of one record as its line. */
  function Serializer(render: AmountRenderer): Record -> string
  {
    rec => Line(ToIR(rec, render))
  }

  /** All lines of `records`, in order. */
  function Lines(records: seq<Record>, render: AmountRenderer): seq<string>
  {
    Map(Serializer(render), records)
  }

  /** Index of the first `false` in `oks`, or `|oks|` if there is none. */
  function FirstFailure(oks: seq<bool>): (k: nat)
    ensures k <= |oks|
    ensures forall i :: 0 <= i < k ==> oks[i]
    ensures k < |oks| ==> !oks[k]
  {
    if oks == [] then 0
    else if !oks[0] then 0
    else 1 + FirstFailure(oks[1..])
  }

  /** The stateful CSV serializer: `;` as delimiter and no header line. Its
      output stream is the sequence of lines written so far; `serialize`
      turns a record into its line. */
  class Writer {
    const serialize: Record -> string
    var lines: seq<string>

    /** A fresh writer has written nothing, in particular no header line. */
    constructor (render: AmountRenderer)
      ensures serialize == Serializer(render)
      ensures lines == []
    {
      serialize := Serializer(render);
      lines := [];
    }

    /** Serializes `rec` as one line appended to the output. `accepted` is the
        output stream's answer; when it refuses, the failure is returned to the
        caller and the model's output is unchanged. */
    method Write(rec: Record, accepted: bool) returns (r: Outcome)
      modifies this
      ensures accepted ==> r == Pass && lines == old(lines) + [serialize(rec)]
      ensures !accepted ==> r == Fail(WriteFailed) && lines == old(lines)
    {
      if accepted {
        lines := lines + [serialize(rec)];
        r := Pass;
      } else {
        r := Fail(WriteFailed);
      }
    }

    /** Writes `records` in order, stopping at the first write the stream
        refuses (`accepted[i]` is the stream's answer to the i-th write). The
        lines of the records before that one are appended in call order and
        earlier output is untouched. */
    method WriteAll(records: seq<Record>, accepted: seq<bool>) returns (r: Outcome)
      requires |accepted| == |records|
      modifies this
      ensures var k := FirstFailure(accepted);
        && lines == old(lines) + Map(serialize, records[..k])
        && (r == Pass <==> k == |records|)
        && (r != Pass ==> r == Fail(WriteFailed))
    {
      var k := FirstFailure(accepted);
      var i := 0;
      r := Pass;
      while i < |records|
        invariant 0 <= i <= k
        invariant r == Pass
        invariant lines == old(lines) + Map(serialize, records[..i])
      {
        r := Write(records[i], accepted[i]);
        if r != Pass {
          assert i == k;
          return;
        }
        MapAppend(serialize, records[..i], [records[i]]);
        assert records[..i] + [records[i]] == records[..i + 1];
        i := i + 1;
      }
      assert records[..i] == records[..k];
    }
  }
}

/** The writer's example from its unit test: two records, written as two
    lines in call order, with no header line. */
module HomeBankExample {
  import opened Text
  import opened Calendar
  import opened Money
  import opened HomeBank
  import opened Streams

  function CashRecord(cash: Amount): Record
  {
    Record(Date(2015, 2, 4), Payment.None, "", "", "Some cash", cash, "Bill:Withdrawal of cash", ["tag1", "tag2"])
  }

  function DslRecord(dsl: Amount): Record
  {
    Record(Date(2015, 2, 4), CreditCard, "", "", "Internet DSL", dsl, "Inline service/Internet", ["tag2", "my-tag3"])
  }

  lemma TestDate()
    ensures FormatDate(Date(2015, 2, 4)) == "2015-02-04"
  {
    JoinThree("2015", "02", "04", '-');
  }

  lemma CashLine(render: AmountRenderer, cash: Amount)
    requires render(cash) == "-40,00"
    ensures Line(ToIR(CashRecord(cash), render))
      == Join(["2015-02-04", "0", "", "", "Some cash", "-40,00", "Bill:Withdrawal of cash", "tag1 tag2"], ';') + "\n"
  {
    TestDate();
    assert Decimal(0) == "0";
    assert JoinTags(["tag1", "tag2"]) == "tag1 tag2" by {
      assert ["tag1", "tag2"][1..] == ["tag2"];
    }
  }

  lemma DslLine(render: AmountRenderer, dsl: Amount)
    requires render(dsl) == "-45,00"
    ensures Line(ToIR(DslRecord(dsl), render))
      == Join(["2015-02-04", "1", "", "", "Internet DSL", "-45,00", "Inline service/Internet", "tag2 my-tag3"], ';') + "\n"
  {
    TestDate();
    assert Decimal(1) == "1";
    assert JoinTags(["tag2", "my-tag3"]) == "tag2 my-tag3" by {
      assert ["tag2", "my-tag3"][1..] == ["my-tag3"];
    }
  }

  /** The two records of the test, with the amounts given by their rendered
      text, produce the two expected lines in call order: the eight expected
      fields joined by `;`, each line ended by a newline. */
  lemma {:induction false} BasicWrite(render: AmountRenderer, cash: Amount, dsl: Amount)
    requires render(cash) == "-40,00" && render(dsl) == "-45,00"
    ensures Lines([CashRecord(cash), DslRecord(dsl)], render)
      == [
        Join(["2015-02-04", "0", "", "", "Some cash", "-40,00", "Bill:Withdrawal of cash", "tag1 tag2"], ';') + "\n",
        Join(["2015-02-04", "1", "", "", "Internet DSL", "-45,00", "Inline service/Internet", "tag2 my-tag3"], ';') + "\n"
      ]
  {
    CashLine(render, cash);
    DslLine(render, dsl);
    LinesPair(CashRecord(cash), DslRecord(dsl), render);
  }

  lemma LinesPair(a: Record, b: Record, render: AmountRenderer)
    ensures Lines([a, b], render) == [Line(ToIR(a, render)), Line(ToIR(b, render))]
  {
    MapAt(Serializer(render), [a, b], 0);
    MapAt(Serializer(render), [a, b], 1);
  }
}
