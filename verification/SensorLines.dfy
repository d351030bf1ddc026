/**
 The three sensor lines end to end: formatted into a buffer of the worker's size, read back
 as a C string, parsed, and handed to the pipeline as a reading.
 */
module SensorLines {
  import opened Wrappers
  import opened CStrings
  import opened Decimal
  import opened SensorText
  import opened SensorChain

  const HT_LITS: seq<string> := ["Temperature: ", " C, Humidity: "]
  const PRESS_LITS: seq<string> := ["Pressure: "]
  const IMU_LITS: seq<string> := ["Accel: ", ", ", ", ", " | Gyro: ", ", ", ", "]

  // The format strings of the source, literal by literal.

  lemma OneField(a: string, lits: seq<string>, k: char, tail: string)
    ensures PrintFormat([a] + lits, k, tail) == a + (['%', '.', k, 'f'] + PrintFormat(lits, k, tail))
    ensures ScanFormat([a] + lits, tail) == a + ("%f" + ScanFormat(lits, tail))
  {
    assert ([a] + lits)[1..] == lits;
  }

  lemma ThreeFields(a: string, b: string, c: string, lits: seq<string>, k: char, tail: string)
    ensures PrintFormat([a, b, c] + lits, k, tail)
            == (a + ['%', '.', k, 'f'] + b + ['%', '.', k, 'f'] + c + ['%', '.', k, 'f']) + PrintFormat(lits, k, tail)
    ensures ScanFormat([a, b, c] + lits, tail) == (a + "%f" + b + "%f" + c + "%f") + ScanFormat(lits, tail)
  {
    OneField(c, lits, k, tail);
    OneField(b, [c] + lits, k, tail);
    OneField(a, [b] + ([c] + lits), k, tail);
    hide PrintFormat, ScanFormat;
    assert [a, b, c] + lits == [a] + ([b] + ([c] + lits));
  }

  lemma HtPrintFormat()
    ensures HT_PRINT == PrintFormat(HT_LITS, '1', " %%\n")
  {
    OneField(" C, Humidity: ", [], '1', " %%\n");
    OneField("Temperature: ", [" C, Humidity: "], '1', " %%\n");
    assert [" C, Humidity: "] + [] == [" C, Humidity: "] && ["Temperature: "] + [" C, Humidity: "] == HT_LITS;
    assert PrintFormat([], '1', " %%\n") == " %%\n";
    hide PrintFormat;
  }

  lemma HtScanFormat()
    ensures HT_SCAN == ScanFormat(HT_LITS, " %%")
  {
    OneField(" C, Humidity: ", [], '1', " %%");
    OneField("Temperature: ", [" C, Humidity: "], '1', " %%");
    assert [" C, Humidity: "] + [] == [" C, Humidity: "] && ["Temperature: "] + [" C, Humidity: "] == HT_LITS;
    assert ScanFormat([], " %%") == " %%";
    hide ScanFormat;
  }

  lemma HtLiterals()
    ensures GoodFields(HT_LITS, true)
  {
    assert HT_LITS[1..] == [" C, Humidity: "] && HT_LITS[1..][1..] == [];
    assert GoodLiteral("Temperature: ", true) && GoodLiteral(" C, Humidity: ", false);
  }

  /** The percent sign at the end prints once and is matched without converting anything. */
  lemma HtTail()
    ensures Print(" %%\n", []) == " %\n" && Scan(" %%", " %\n") == []
  {
    assert " %%\n"[1..] == "%%\n" && "%%\n"[2..] == "\n" && "\n"[1..] == "";
    assert Print("\n", []) == "\n";
    assert Print("%%\n", []) == "%" + "\n";
    PercentTaken();
  }

  lemma PercentTaken()
    ensures Scan(" %%", " %\n") == []
  {
    assert " %%"[1..] == "%%" && " %\n"[1..] == "%\n" && "%%"[2..] == "";
    assert SkipSpaces("%\n") == "%\n";
    assert SkipSpaces(" %\n") == "%\n";
    assert Scan("%%", "%\n") == Scan("", "%\n"[1..]);
  }

  lemma PressFormats()
    ensures PRESS_PRINT == PrintFormat(PRESS_LITS, '1', " kPa\n") && PRESS_SCAN == ScanFormat(PRESS_LITS, "")
    ensures GoodFields(PRESS_LITS, true)
    ensures Print(" kPa\n", []) == " kPa\n"
  {
    assert PRESS_LITS[1..] == [];
    PrintPlain(" kPa\n", "", []);
    assert " kPa\n" + "" == " kPa\n";
  }

  const IMU_LITS_3: seq<string> := [" | Gyro: ", ", ", ", "]

  lemma ImuTails()
    ensures IMU_LITS[1..] == [", ", ", "] + IMU_LITS_3
    ensures IMU_LITS[1..][1..] == [", "] + IMU_LITS_3
    ensures IMU_LITS[1..][1..][1..] == IMU_LITS_3
    ensures IMU_LITS_3[1..] == [", ", ", "] && IMU_LITS_3[1..][1..] == [", "] && IMU_LITS_3[1..][1..][1..] == []
  {
  }

  lemma AccelText()
    ensures "Accel: " + "%.2f" + ", " + "%.2f" + ", " + "%.2f" == "Accel: %.2f, %.2f, %.2f"
    ensures "Accel: " + "%f" + ", " + "%f" + ", " + "%f" == "Accel: %f, %f, %f"
  {
  }

  lemma GyroText()
    ensures " | Gyro: " + "%.2f" + ", " + "%.2f" + ", " + "%.2f" == " | Gyro: %.2f, %.2f, %.2f"
    ensures " | Gyro: " + "%f" + ", " + "%f" + ", " + "%f" == " | Gyro: %f, %f, %f"
  {
  }

  lemma ImuPrintText()
    ensures "Accel: %.2f, %.2f, %.2f" + (" | Gyro: %.2f, %.2f, %.2f" + "\n") == IMU_PRINT
  {
  }

  lemma ImuClean()
    ensures IMU_PRINT != [] && IMU_PRINT[0] == 'A' && '\0' !in IMU_PRINT
  {
    var a, b := "Accel: %.2f, %.2f, %.2f", " | Gyro: %.2f, %.2f, %.2f";
    ImuPrintText();
    assert '\0' !in a && '\0' !in b && a[0] == 'A';
    assert IMU_PRINT == a + (b + "\n");
  }

  lemma ImuScanText()
    ensures "Accel: %f, %f, %f" + (" | Gyro: %f, %f, %f" + "") == IMU_SCAN
  {
  }

  lemma ImuPrintFormat()
    ensures IMU_PRINT == PrintFormat(IMU_LITS, '2', "\n")
  {
    ThreeFields(" | Gyro: ", ", ", ", ", [], '2', "\n");
    ThreeFields("Accel: ", ", ", ", ", IMU_LITS_3, '2', "\n");
    assert PrintFormat([], '2', "\n") == "\n";
    hide *;
    assert ['%', '.', '2', 'f'] == "%.2f";
    assert IMU_LITS_3 + [] == IMU_LITS_3 && ["Accel: ", ", ", ", "] + IMU_LITS_3 == IMU_LITS;
    AccelText();
    GyroText();
    ImuPrintText();
  }

  lemma ImuScanFormat()
    ensures IMU_SCAN == ScanFormat(IMU_LITS, "")
  {
    ThreeFields(" | Gyro: ", ", ", ", ", [], '2', "");
    ThreeFields("Accel: ", ", ", ", ", IMU_LITS_3, '2', "");
    assert ScanFormat([], "") == "";
    hide *;
    assert IMU_LITS_3 + [] == IMU_LITS_3 && ["Accel: ", ", ", ", "] + IMU_LITS_3 == IMU_LITS;
    AccelText();
    GyroText();
    ImuScanText();
  }

  lemma ImuLiterals()
    ensures GoodFields(IMU_LITS, true)
  {
    ImuTails();
    assert GoodLiteral("Accel: ", true) && GoodLiteral(", ", false) && GoodLiteral(" | Gyro: ", false);
    hide GoodLiteral;
    assert GoodFields([", "], false) && GoodFields([", ", ", "], false);
    assert GoodFields(IMU_LITS_3, false);
    assert GoodFields([", "] + IMU_LITS_3, false);
    assert GoodFields([", ", ", "] + IMU_LITS_3, false);
  }

  lemma ImuTail()
    ensures Print("\n", []) == "\n"
  {
    PrintPlain("\n", "", []);
    assert "\n" + "" == "\n";
  }

  // ---- the printed lines and their parsers ----

  function HtText(t: Number, h: Number): string
    requires t.scale >= 1 && h.scale >= 1
  {
    Print(HT_PRINT, [t, h])
  }

  function PressText(p: Number): string
    requires p.scale >= 1
  {
    Print(PRESS_PRINT, [p])
  }

  function ImuText(axes: seq<Number>): string
    requires Printable(axes)
  {
    Print(IMU_PRINT, axes)
  }

  /** The parsers succeed when every conversion of their format did. */
  function ParseAll(format: string, count: nat, s: string): Option<seq<Number>> {
    var ds := Scan(format, s);
    if |ds| == count then Some(ds) else None
  }

  /** Temperature and humidity. */
  lemma HtRoundTrip(t: Number, h: Number)
    requires t.scale == h.scale == 1
    ensures ParseAll(HT_SCAN, 2, HtText(t, h)) == Some([t, h])
  {
    HtPrintFormat();
    HtScanFormat();
    HtLiterals();
    HtTail();
    FieldsRoundTrip(HT_LITS, true, '1', " %%\n", " %%", [t, h]);
    hide *;
    assert [t, h] + [] == [t, h];
  }

  lemma PressRoundTrip(p: Number)
    requires p.scale == 1
    ensures ParseAll(PRESS_SCAN, 1, PressText(p)) == Some([p])
  {
    PressFormats();
    FieldsRoundTrip(PRESS_LITS, true, '1', " kPa\n", "", [p]);
    assert [p] + [] == [p];
  }

  /** All six axes. */
  lemma ImuRoundTrip(axes: seq<Number>)
    requires |axes| == 6 && forall d :: d in axes ==> d.scale == 2
    ensures ParseAll(IMU_SCAN, 6, ImuText(axes)) == Some(axes)
  {
    ImuPrintFormat();
    ImuScanFormat();
    ImuLiterals();
    ImuTail();
    FieldsRoundTrip(IMU_LITS, true, '2', "\n", "", axes);
    assert axes + [] == axes;
  }

  /** Literals and printed numbers, taken alternately. */
  function Woven(lits: seq<string>, ds: seq<Number>, tail: string): string
    requires Printable(ds) && |ds| == |lits|
  {
    if lits == [] then tail else lits[0] + (Fixed(ds[0]) + Woven(lits[1..], ds[1..], tail))
  }

  lemma {:induction false} LineShape(lits: seq<string>, k: char, tail: string, ds: seq<Number>)
    requires Printable(ds) && |ds| == |lits| && k != '%'
    requires forall i :: 0 <= i < |lits| ==> '%' !in lits[i]
    ensures Print(PrintFormat(lits, k, tail), ds) == Woven(lits, ds, Print(tail, []))
    decreases |lits|
  {
    hide Fixed, Print;
    if lits != [] {
      var rest := PrintFormat(lits[1..], k, tail);
      assert ds == [ds[0]] + ds[1..];
      PrintPlain(lits[0], ['%', '.', k, 'f'] + rest, ds);
      PrintNumber(k, rest, ds[0], ds[1..]);
      LineShape(lits[1..], k, tail, ds[1..]);
    } else {
      assert ds == [];
    }
  }

  lemma WeaveOne(lit: string, lits: seq<string>, d: Number, ds: seq<Number>, tail: string)
    requires Printable([d] + ds) && |ds| == |lits|
    ensures Printable(ds)
    ensures Woven([lit] + lits, [d] + ds, tail) == lit + (Fixed(d) + Woven(lits, ds, tail))
  {
    hide Fixed;
    assert ([lit] + lits)[1..] == lits && ([d] + ds)[1..] == ds;
    forall x | x in ds ensures x.scale >= 1 { assert x in [d] + ds; }
  }

  /** The three lines, written out around their numbers. */
  lemma HtShape(t: Number, h: Number)
    requires t.scale >= 1 && h.scale >= 1
    ensures HtText(t, h) == "Temperature: " + (Fixed(t) + (" C, Humidity: " + (Fixed(h) + " %\n")))
  {
    hide Print, Fixed, PrintFormat, Woven, GoodFields;
    HtPrintFormat();
    HtTail();
    LineShape(HT_LITS, '1', " %%\n", [t, h]);
    assert [t, h] == [t] + ([h] + []) && HT_LITS == ["Temperature: "] + ([" C, Humidity: "] + []);
    WeaveOne("Temperature: ", [" C, Humidity: "] + [], t, [h] + [], " %\n");
    WeaveOne(" C, Humidity: ", [], h, [], " %\n");
    WeaveNone(" %\n");
  }

  lemma WeaveNone(tail: string)
    ensures Woven([], [], tail) == tail
  {
  }

  lemma PressShape(p: Number)
    requires p.scale >= 1
    ensures PressText(p) == "Pressure: " + (Fixed(p) + " kPa\n")
  {
    hide Print, Fixed, PrintFormat, Woven, GoodFields;
    PressFormats();
    LineShape(PRESS_LITS, '1', " kPa\n", [p]);
    assert [p] == [p] + [] && PRESS_LITS == ["Pressure: "] + [];
    WeaveOne("Pressure: ", [], p, [], " kPa\n");
    WeaveNone(" kPa\n");
  }

  lemma ImuShape(axes: seq<Number>)
    requires |axes| == 6 && Printable(axes)
    ensures ImuText(axes)
            == "Accel: " + (Fixed(axes[0]) + (", " + (Fixed(axes[1]) + (", " + (Fixed(axes[2])
               + (" | Gyro: " + (Fixed(axes[3]) + (", " + (Fixed(axes[4]) + (", " + (Fixed(axes[5]) + "\n")))))))))))
  {
    hide Print, Fixed, PrintFormat, Woven, GoodFields;
    ImuPrintFormat();
    ImuTail();
    LineShape(IMU_LITS, '2', "\n", axes);
    ImuTails();
    var c5, c4, c3 := [axes[5]] + [], [axes[4], axes[5]], [axes[3], axes[4], axes[5]];
    assert axes == [axes[0]] + ([axes[1]] + ([axes[2]] + c3));
    assert c3 == [axes[3]] + c4 && c4 == [axes[4]] + c5;
    assert IMU_LITS == ["Accel: "] + ([", "] + ([", "] + IMU_LITS_3));
    assert IMU_LITS_3 == [" | Gyro: "] + ([", "] + ([", "] + []));
    WeaveOne("Accel: ", [", "] + ([", "] + IMU_LITS_3), axes[0], [axes[1]] + ([axes[2]] + c3), "\n");
    WeaveOne(", ", [", "] + IMU_LITS_3, axes[1], [axes[2]] + c3, "\n");
    WeaveOne(", ", IMU_LITS_3, axes[2], c3, "\n");
    WeaveOne(" | Gyro: ", [", "] + ([", "] + []), axes[3], c4, "\n");
    WeaveOne(", ", [", "] + [], axes[4], c5, "\n");
    WeaveOne(", ", [], axes[5], [], "\n");
    WeaveNone("\n");
  }

  // ---- the buffer between them ----

  function Min(a: int, b: int): int {
    if a < b then a else b
  }

  /** The characters `snprintf` keeps. */
  function Kept(text: string, bufLen: nat): string
    requires bufLen >= 1
  {
    text[..Min(|text|, bufLen - 1)]
  }

  /** Writes at most bufLen characters, the last a NUL; returns the length the text wanted. */
  method Snprintf(buf: array<char>, bufLen: nat, text: string) returns (ret: nat)
    requires bufLen <= buf.Length
    modifies buf
    ensures ret == |text|
    ensures bufLen == 0 ==> buf[..] == old(buf[..])
    ensures bufLen > 0 ==>
              var n := |Kept(text, bufLen)|; buf[..] == Kept(text, bufLen) + ['\0'] + old(buf[..])[n + 1..]
  {
    ret := |text|;
    if bufLen == 0 { return; }
    var n := Min(|text|, bufLen - 1);
    var i := 0;
    while i < n
      invariant 0 <= i <= n
      invariant forall j :: 0 <= j < i ==> buf[j] == text[j]
      invariant forall j :: i <= j < buf.Length ==> buf[j] == old(buf[j])
    {
      buf[i] := text[i];
      i := i + 1;
    }
    buf[n] := '\0';
    assert buf[..n] == Kept(text, bufLen);
    assert buf[n + 1..] == old(buf[..])[n + 1..];
    assert buf[..] == buf[..n] + [buf[n]] + buf[n + 1..];
  }

  lemma {:induction false} FixedNoNul(d: Number)
    requires d.scale >= 1
    ensures '\0' !in Fixed(d)
  {
    var p := Pow10(d.scale as nat);
    DigitsValue(Quot(d.mag, p));
    PaddedValue(Rem(d.mag, p), d.scale as nat);
  }

  lemma {:induction false} PrintNoNul(format: string, args: seq<Number>)
    requires Printable(args) && '\0' !in format
    ensures '\0' !in Print(format, args)
    decreases |format|
  {
    hide Fixed;
    if format == [] {
    } else if format[0] != '%' || |format| < 2 {
      PrintNoNul(format[1..], args);
    } else if format[1] == '%' {
      PrintNoNul(format[2..], args);
    } else if |format| >= 4 && format[1] == '.' && format[3] == 'f' && args != [] {
      FixedNoNul(args[0]);
      PrintNoNul(format[4..], args[1..]);
    } else {
      PrintNoNul(format[2..], args);
    }
  }

  // ---- the worker's sampling ----

  function ToReal(d: Number): real {
    var v := if d.scale >= 0 then d.mag as real / Pow10(d.scale) as real
             else d.mag as real * Pow10(-d.scale) as real;
    if d.neg then -v else v
  }

  /** The value is the signed digits divided by the power of ten of the scale. */
  lemma RealOfTenths(d: Number)
    requires d.scale == 1
    ensures ToReal(d) * 10.0 == (if d.neg then -(d.mag as real) else d.mag as real)
  {
    assert Pow10(1) == 10 * Pow10(0) == 10;
  }

  lemma RealOfHundredths(d: Number)
    requires d.scale == 2
    ensures ToReal(d) * 100.0 == (if d.neg then -(d.mag as real) else d.mag as real)
  {
    assert Pow10(1) == 10 * Pow10(0) == 10 && Pow10(2) == 10 * Pow10(1) == 100;
  }

  function ToReals(ds: seq<Number>): (r: seq<real>)
    ensures |r| == |ds|
  {
    seq(|ds|, i requires 0 <= i < |ds| => ToReal(ds[i]))
  }

  /** What a buffer holds of a line reads back as itself, whole or cut. */
  lemma KeptLine(text: string, bufLen: nat, rest: seq<char>)
    requires bufLen >= 1 && '\0' !in text
    ensures CString(Kept(text, bufLen) + ['\0'] + rest) == Kept(text, bufLen)
    ensures |text| < bufLen ==> Kept(text, bufLen) == text
    ensures |text| >= bufLen ==> Kept(text, bufLen) == text[..bufLen - 1]
  {
    CStringOf(Kept(text, bufLen), rest);
  }

  const HT_BUF := 128
  const PRESS_BUF := 128
  const IMU_BUF := 192

  /** Fetches and formats; -1 and an untouched buffer when the device or a channel failed. */
  method HumTempGetString(buf: array<char>, bufLen: nat, m: Option<(Number, Number)>) returns (ret: int)
    requires bufLen <= buf.Length && (m.Some? ==> m.value.0.scale == m.value.1.scale == 1)
    modifies buf
    ensures m == None ==> ret == -1 && buf[..] == old(buf[..])
    ensures m.Some? ==> ret == |HtText(m.value.0, m.value.1)|
    ensures m.Some? && ret < bufLen ==> CString(buf[..]) == HtText(m.value.0, m.value.1)
    ensures m.Some? && 1 <= bufLen <= ret ==> CString(buf[..]) == HtText(m.value.0, m.value.1)[..bufLen - 1]
  {
    hide Print, CString;
    match m
    case None => ret := -1;
    case Some((t, h)) =>
      var text := HtText(t, h);
      PrintNoNul(HT_PRINT, [t, h]);
      ret := Snprintf(buf, bufLen, text);
      if bufLen > 0 { KeptLine(text, bufLen, old(buf[..])[|Kept(text, bufLen)| + 1..]); }
  }

  method PressureGetString(buf: array<char>, bufLen: nat, m: Option<Number>) returns (ret: int)
    requires bufLen <= buf.Length && (m.Some? ==> m.value.scale == 1)
    modifies buf
    ensures m == None ==> ret == -1 && buf[..] == old(buf[..])
    ensures m.Some? ==> ret == |PressText(m.value)|
    ensures m.Some? && ret < bufLen ==> CString(buf[..]) == PressText(m.value)
    ensures m.Some? && 1 <= bufLen <= ret ==> CString(buf[..]) == PressText(m.value)[..bufLen - 1]
  {
    hide Print, CString;
    match m
    case None => ret := -1;
    case Some(p) =>
      var text := PressText(p);
      PrintNoNul(PRESS_PRINT, [p]);
      ret := Snprintf(buf, bufLen, text);
      if bufLen > 0 { KeptLine(text, bufLen, old(buf[..])[|Kept(text, bufLen)| + 1..]); }
  }

  method ImuGetString(buf: array<char>, bufLen: nat, m: Option<seq<Number>>) returns (ret: int)
    requires bufLen <= buf.Length && (m.Some? ==> |m.value| == 6 && forall d :: d in m.value ==> d.scale == 2)
    modifies buf
    ensures m == None ==> ret == -1 && buf[..] == old(buf[..])
    ensures m.Some? ==> ret == |ImuText(m.value)|
    ensures m.Some? && ret < bufLen ==> CString(buf[..]) == ImuText(m.value)
    ensures m.Some? && 1 <= bufLen <= ret ==> CString(buf[..]) == ImuText(m.value)[..bufLen - 1]
  {
    hide Print, CString;
    match m
    case None => ret := -1;
    case Some(axes) =>
      var text := ImuText(axes);
      ImuClean();
      PrintNoNul(IMU_PRINT, axes);
      ret := Snprintf(buf, bufLen, text);
      if bufLen > 0 { KeptLine(text, bufLen, old(buf[..])[|Kept(text, bufLen)| + 1..]); }
  }

  /** What a worker makes of its line. */
  function Parsed(format: string, w: nat, s: string): (r: Reading)
    requires w < WORKERS
    ensures LegalAction(Work(w, r))
  {
    match ParseAll(format, Width(w), s)
    case None => None
    case Some(ds) => Some(ToReals(ds))
  }

  /** The humidity worker between taking its semaphore and locking the snapshot. */
  method HumSample(m: Option<(Number, Number)>) returns (r: Reading)
    requires m.Some? ==> m.value.0.scale == m.value.1.scale == 1
    ensures LegalAction(Work(0, r))
    ensures m == None ==> r == None
    ensures m.Some? && |HtText(m.value.0, m.value.1)| >= 128 ==> r == Parsed(HT_SCAN, 0, HtText(m.value.0, m.value.1)[..127])
    ensures m.Some? && |HtText(m.value.0, m.value.1)| < 128 ==>
              var (t, h) := m.value;
              && r.Some? && |r.value| == 2
              && r.value[0] * 10.0 == (if t.neg then -(t.mag as real) else t.mag as real)
              && r.value[1] * 10.0 == (if h.neg then -(h.mag as real) else h.mag as real)
  {
    hide Print, Scan, CString, ToReal;
    var buf := new char[HT_BUF];
    var ret := HumTempGetString(buf, HT_BUF, m);
    if ret > 0 { r := Parsed(HT_SCAN, 0, CString(buf[..])); } else { r := None; }
    if m.Some? {
      HtRoundTrip(m.value.0, m.value.1);
      TextNotEmpty(HT_PRINT, [m.value.0, m.value.1]);
      RealOfTenths(m.value.0);
      RealOfTenths(m.value.1);
    }
  }

  method PressSample(m: Option<Number>) returns (r: Reading)
    requires m.Some? ==> m.value.scale == 1
    ensures LegalAction(Work(1, r))
    ensures m == None ==> r == None
    ensures m.Some? && |PressText(m.value)| >= 128 ==> r == Parsed(PRESS_SCAN, 1, PressText(m.value)[..127])
    ensures m.Some? && |PressText(m.value)| < 128 ==>
              && r.Some? && |r.value| == 1
              && r.value[0] * 10.0 == (if m.value.neg then -(m.value.mag as real) else m.value.mag as real)
  {
    hide Print, Scan, CString, ToReal;
    var buf := new char[PRESS_BUF];
    var ret := PressureGetString(buf, PRESS_BUF, m);
    if ret > 0 { r := Parsed(PRESS_SCAN, 1, CString(buf[..])); } else { r := None; }
    if m.Some? {
      PressRoundTrip(m.value);
      TextNotEmpty(PRESS_PRINT, [m.value]);
      RealOfTenths(m.value);
    }
  }

  method ImuSample(m: Option<seq<Number>>) returns (r: Reading)
    requires m.Some? ==> |m.value| == 6 && forall d :: d in m.value ==> d.scale == 2
    ensures LegalAction(Work(2, r))
    ensures m == None ==> r == None
    ensures m.Some? && |ImuText(m.value)| >= 192 ==> r == Parsed(IMU_SCAN, 2, ImuText(m.value)[..191])
    ensures m.Some? && |ImuText(m.value)| < 192 ==>
              && r.Some? && |r.value| == 6
              && forall i :: 0 <= i < 6 ==>
                   r.value[i] * 100.0 == (if m.value[i].neg then -(m.value[i].mag as real) else m.value[i].mag as real)
  {
    hide Print, Scan, CString, ToReal;
    var buf := new char[IMU_BUF];
    var ret := ImuGetString(buf, IMU_BUF, m);
    if ret > 0 { r := Parsed(IMU_SCAN, 2, CString(buf[..])); } else { r := None; }
    if m.Some? {
      ImuRoundTrip(m.value);
      ImuClean();
      TextNotEmpty(IMU_PRINT, m.value);
      forall i | 0 <= i < 6
        ensures ToReal(m.value[i]) * 100.0
                == (if m.value[i].neg then -(m.value[i].mag as real) else m.value[i].mag as real)
      {
        RealOfHundredths(m.value[i]);
      }
    }
  }

  lemma TextNotEmpty(format: string, args: seq<Number>)
    requires Printable(args) && format != [] && format[0] != '%'
    ensures Print(format, args) != []
  {
  }

  // ---- the buffers are large enough for the sensors ----

  /**
   A sensor value is a 32-bit whole part plus 32 bits of millionths, which need not be below one
   million when a channel was never filled in: less than 10^10 in size in any case.
   */
  predicate SensorRange(d: Number) {
    d.scale >= 1 && Quot(d.mag, Pow10(d.scale)) < 10_000_000_000
  }

  function TotalLength(lits: seq<string>): nat {
    if lits == [] then 0 else |lits[0]| + TotalLength(lits[1..])
  }

  lemma {:induction false} LineLength(lits: seq<string>, k: char, tail: string, ds: seq<Number>, bound: nat)
    requires Printable(ds) && |ds| == |lits| && k != '%'
    requires forall i :: 0 <= i < |lits| ==> '%' !in lits[i]
    requires forall d :: d in ds ==> |Fixed(d)| <= bound
    ensures |Print(PrintFormat(lits, k, tail), ds)| <= TotalLength(lits) + |ds| * bound + |Print(tail, [])|
    decreases |lits|
  {
    hide Fixed, Print;
    if lits != [] {
      var rest := PrintFormat(lits[1..], k, tail);
      assert ds == [ds[0]] + ds[1..];
      PrintPlain(lits[0], ['%', '.', k, 'f'] + rest, ds);
      PrintNumber(k, rest, ds[0], ds[1..]);
      LineLength(lits[1..], k, tail, ds[1..], bound);
      assert |ds| * bound == bound + |ds[1..]| * bound;
    } else {
      assert ds == [];
    }
  }

  lemma RangeLength(d: Number)
    requires SensorRange(d)
    ensures |Fixed(d)| <= 12 + d.scale
  {
    assert Pow10(10) == 10_000_000_000 by {
      assert Pow10(3) == 1000;
      assert Pow10(5) == 100 * Pow10(3);
      assert Pow10(7) == 100 * Pow10(5);
      assert Pow10(9) == 100 * Pow10(7);
    }
    hide Pow10;
    FixedLength(d, 10);
  }

  /** Every value a sensor can report fits, so the pipeline gets exactly what was printed. */
  lemma SensorLinesFit(t: Number, h: Number, p: Number, axes: seq<Number>)
    requires SensorRange(t) && SensorRange(h) && SensorRange(p) && t.scale == h.scale == p.scale == 1
    requires |axes| == 6 && forall d :: d in axes ==> SensorRange(d) && d.scale == 2
    ensures |HtText(t, h)| < 128 && |PressText(p)| < 128 && |ImuText(axes)| < 192
  {
    HtFits(t, h);
    PressFits(p);
    ImuFits(axes);
  }

  lemma HtFits(t: Number, h: Number)
    requires SensorRange(t) && SensorRange(h) && t.scale == h.scale == 1
    ensures |HtText(t, h)| < HT_BUF
  {
    hide Print, Fixed, PrintFormat, SensorRange;
    RangeLength(t);
    RangeLength(h);
    HtPrintFormat();
    HtTail();
    LineLength(HT_LITS, '1', " %%\n", [t, h], 13);
    assert HT_LITS[1..] == [" C, Humidity: "] && HT_LITS[1..][1..] == [];
    assert TotalLength(HT_LITS) == 27;
  }

  lemma PressFits(p: Number)
    requires SensorRange(p) && p.scale == 1
    ensures |PressText(p)| < PRESS_BUF
  {
    hide Print, Fixed, PrintFormat, SensorRange;
    RangeLength(p);
    PressFormats();
    LineLength(PRESS_LITS, '1', " kPa\n", [p], 13);
    assert TotalLength(PRESS_LITS) == 10;
  }

  lemma ImuFits(axes: seq<Number>)
    requires |axes| == 6 && forall d :: d in axes ==> SensorRange(d) && d.scale == 2
    ensures |ImuText(axes)| < IMU_BUF
  {
    hide Print, Fixed, PrintFormat, SensorRange, TotalLength;
    forall d | d in axes ensures |Fixed(d)| <= 14 { RangeLength(d); }
    ImuPrintFormat();
    ImuTail();
    LineLength(IMU_LITS, '2', "\n", axes, 14);
    ImuTotal();
  }

  lemma ImuTotal()
    ensures TotalLength(IMU_LITS) == 24
  {
    ImuTails();
    assert TotalLength(IMU_LITS_3) == 13;
  }
}
