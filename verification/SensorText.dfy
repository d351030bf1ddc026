/**
 The sensor lines: one file formats them into a caller's buffer, another parses them back.
 Both sides interpret the format strings of the source.
 */
module SensorText {
  import opened Wrappers
  import opened Decimal

  /** `printf` with the directives the source uses: `%.kf` for one digit k, and `%%`. */
  function Print(format: string, args: seq<Number>): string
    requires forall d :: d in args ==> d.scale >= 1
    decreases |format|
  {
    if format == [] then []
    else if format[0] != '%' || |format| < 2 then [format[0]] + Print(format[1..], args)
    else if format[1] == '%' then "%" + Print(format[2..], args)
    else if |format| >= 4 && format[1] == '.' && format[3] == 'f' && args != [] then
      Fixed(args[0]) + Print(format[4..], args[1..])
    else Print(format[2..], args)
  }

  /** `sscanf`: the numbers converted before the first mismatch. */
  function Scan(format: string, input: string): seq<Number>
    decreases |format|
  {
    if format == [] then []
    else if format[0] == '%' && |format| >= 2 then
      if format[1] == 'f' then
        match ScanNumber(input)
        case None => []
        case Some((d, rest)) => [d] + Scan(format[2..], rest)
      else
        var rest := SkipSpaces(input);
        if format[1] == '%' && rest != [] && rest[0] == '%' then Scan(format[2..], rest[1..]) else []
    else if IsSpace(format[0]) then Scan(format[1..], SkipSpaces(input))
    else if input != [] && input[0] == format[0] then Scan(format[1..], input[1..])
    else []
  }

  const HT_PRINT := "Temperature: %.1f C, Humidity: %.1f %%\n"
  const HT_SCAN := "Temperature: %f C, Humidity: %f %%"
  const PRESS_PRINT := "Pressure: %.1f kPa\n"
  const PRESS_SCAN := "Pressure: %f"
  const IMU_PRINT := "Accel: %.2f, %.2f, %.2f | Gyro: %.2f, %.2f, %.2f\n"
  const IMU_SCAN := "Accel: %f, %f, %f | Gyro: %f, %f, %f"

  /** Ordinary text: no directive, and every space is followed by something that is not one. */
  predicate Plain(lit: string, next: string) {
    forall i :: 0 <= i < |lit| ==>
      && lit[i] != '%'
      && (IsSpace(lit[i]) ==> var rest := lit[i + 1..] + next; rest != [] && !IsSpace(rest[0]))
  }

  /** Ordinary text in the format consumes the same text of the input. */
  lemma {:induction false} ScanPlain(lit: string, format: string, input: string)
    requires Plain(lit, input)
    ensures Scan(lit + format, lit + input) == Scan(format, input)
    decreases |lit|
  {
    if lit == [] {
      assert lit + format == format && lit + input == input;
    } else {
      assert (lit + format)[1..] == lit[1..] + format && (lit + input)[1..] == lit[1..] + input;
      assert Plain(lit[1..], input) by {
        forall i | 0 <= i < |lit[1..]|
          ensures lit[1..][i] != '%'
          ensures IsSpace(lit[1..][i]) ==> var rest := lit[1..][i + 1..] + input; rest != [] && !IsSpace(rest[0])
        {
          assert lit[1..][i] == lit[i + 1] && lit[1..][i + 1..] == lit[i + 2..];
        }
      }
      ScanPlain(lit[1..], format, input);
      if IsSpace(lit[0]) {
        assert SkipSpaces(lit + input) == SkipSpaces(lit[1..] + input) == lit[1..] + input;
      }
    }
  }

  /** Ordinary text prints as itself. */
  lemma {:induction false} PrintPlain(lit: string, format: string, args: seq<Number>)
    requires (forall d :: d in args ==> d.scale >= 1) && '%' !in lit
    ensures Print(lit + format, args) == lit + Print(format, args)
    decreases |lit|
  {
    if lit == [] {
      assert lit + format == format;
    } else {
      assert (lit + format)[1..] == lit[1..] + format;
      PrintPlain(lit[1..], format, args);
    }
  }

  /** A number directive prints the next argument. */
  lemma PrintNumber(k: char, format: string, d: Number, args: seq<Number>)
    requires (forall x :: x in args ==> x.scale >= 1) && d.scale >= 1 && k != '%'
    ensures Print(['%', '.', k, 'f'] + format, [d] + args) == Fixed(d) + Print(format, args)
  {
    assert (['%', '.', k, 'f'] + format)[4..] == format;
    assert ([d] + args)[1..] == args;
  }

  /** A number directive scans what was printed. */
  lemma ScanPrinted(format: string, d: Number, input: string)
    requires d.scale >= 1 && Stops(input)
    ensures Scan("%f" + format, Fixed(d) + input) == [d] + Scan(format, input)
  {
    hide ScanNumber, Fixed, Stops, SkipSpaces, IsSpace;
    assert ("%f" + format)[2..] == format;
    ScanFixed(d, input);
  }

  /** A printed number never starts with a space. */
  lemma FixedStart(d: Number, s: string)
    requires d.scale >= 1
    ensures Fixed(d) + s != [] && !IsSpace((Fixed(d) + s)[0])
  {
    DigitsValue(Quot(d.mag, Pow10(d.scale as nat)));
    hide Quot, Pow10, Rem, Value;
    var whole := Digits(Quot(d.mag, Pow10(d.scale as nat)));
    assert (Fixed(d) + s)[0] == if d.neg then '-' else whole[0];
  }

  /** A literal that may stand before a number, and after another one. */
  predicate GoodLiteral(lit: string, first: bool) {
    && lit != [] && '%' !in lit && (first || Stops(lit))
    && (forall i :: 0 <= i < |lit| - 1 && IsSpace(lit[i]) ==> !IsSpace(lit[i + 1]))
  }

  lemma GoodIsPlain(lit: string, first: bool, next: string)
    requires GoodLiteral(lit, first) && next != [] && !IsSpace(next[0])
    ensures Plain(lit, next)
  {
    forall i | 0 <= i < |lit| && IsSpace(lit[i])
      ensures var rest := lit[i + 1..] + next; rest != [] && !IsSpace(rest[0])
    {
      if i < |lit| - 1 { assert (lit[i + 1..] + next)[0] == lit[i + 1]; } else { assert lit[i + 1..] + next == next; }
    }
  }

  /** A print format with one number of k digits after each literal, then a tail. */
  function PrintFormat(lits: seq<string>, k: char, tail: string): string {
    if lits == [] then tail else lits[0] + (['%', '.', k, 'f'] + PrintFormat(lits[1..], k, tail))
  }

  /** The matching scan format. */
  function ScanFormat(lits: seq<string>, tail: string): string {
    if lits == [] then tail else lits[0] + ("%f" + ScanFormat(lits[1..], tail))
  }

  predicate GoodFields(lits: seq<string>, first: bool) {
    lits == [] || (GoodLiteral(lits[0], first) && GoodFields(lits[1..], false))
  }

  predicate Printable(ds: seq<Number>) {
    forall d :: d in ds ==> d.scale >= 1
  }

  /** One literal and one number, on both sides at once. */
  lemma Field(lit: string, first: bool, k: char, pf: string, sf: string, d: Number, args: seq<Number>)
    requires Printable(args) && d.scale >= 1 && k != '%' && GoodLiteral(lit, first)
    requires Stops(Print(pf, args))
    ensures Printable([d] + args)
    ensures Print(lit + (['%', '.', k, 'f'] + pf), [d] + args) == lit + (Fixed(d) + Print(pf, args))
    ensures Scan(lit + ("%f" + sf), lit + (Fixed(d) + Print(pf, args))) == [d] + Scan(sf, Print(pf, args))
  {
    hide Print, Scan, Fixed, Stops;
    PrintPlain(lit, ['%', '.', k, 'f'] + pf, [d] + args);
    PrintNumber(k, pf, d, args);
    FixedStart(d, Print(pf, args));
    GoodIsPlain(lit, first, Fixed(d) + Print(pf, args));
    ScanPlain(lit, "%f" + sf, Fixed(d) + Print(pf, args));
    ScanPrinted(sf, d, Print(pf, args));
  }

  /** The round trip for any line of this shape, with any number of fields. */
  lemma {:induction false} FieldsRoundTrip(lits: seq<string>, first: bool, k: char, ptail: string, stail: string,
                                           ds: seq<Number>)
    requires Printable(ds) && |ds| == |lits| && k != '%' && GoodFields(lits, first)
    requires Stops(Print(ptail, []))
    ensures Scan(ScanFormat(lits, stail), Print(PrintFormat(lits, k, ptail), ds)) == ds + Scan(stail, Print(ptail, []))
    ensures lits != [] && !first ==> Stops(Print(PrintFormat(lits, k, ptail), ds))
    decreases |lits|
  {
    hide Print, Scan, Fixed, Stops, GoodLiteral;
    if lits != [] {
      var rest := Print(PrintFormat(lits[1..], k, ptail), ds[1..]);
      FieldsRoundTrip(lits[1..], false, k, ptail, stail, ds[1..]);
      assert lits[1..] == [] ==> ds[1..] == [];
      Field(lits[0], first, k, PrintFormat(lits[1..], k, ptail), ScanFormat(lits[1..], stail), ds[0], ds[1..]);
      assert [ds[0]] + ds[1..] == ds;
      assert [ds[0]] + (ds[1..] + Scan(stail, Print(ptail, []))) == ds + Scan(stail, Print(ptail, []));
      if !first { StopsFirst(lits[0], Fixed(ds[0]) + rest); }
    } else {
      assert ds == [];
    }
  }

  lemma StopsFirst(lit: string, s: string)
    requires GoodLiteral(lit, false)
    ensures Stops(lit + s)
  {
  }
}
