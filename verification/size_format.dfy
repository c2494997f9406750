/** Human-readable file sizes. The browser pages divide by 1024 or 1024*1024
    and print with `toFixed(2)`; the notifier divides by powers of 1024 up
    to GiB and prints with Go's `%.2f`. Both quotients are exact binary
    fractions for sizes below 2^53, so the two printed decimals are the
    exact quotient rounded to hundredths: half up for `toFixed`, half to
    even for Go. */
module SizeFormat {

  import opened Wrappers
  import opened Text
  import Rounding

  const KiB: nat := 1024
  const MiB: nat := 1024 * 1024
  const GiB: nat := 1024 * 1024 * 1024

  datatype SizeUnit = Bytes | KB | MB | GB {
    function Name(): string {
      match this
      case Bytes => "B"
      case KB => "KB"
      case MB => "MB"
      case GB => "GB"
    }

    /** Bytes per unit. */
    function Scale(): nat {
      match this
      case Bytes => 1
      case KB => KiB
      case MB => MiB
      case GB => GiB
    }
  }

  /** Unit chosen by the browser formatter: MB from 1 MiB, KB from 1 KiB,
      bytes below that; both boundaries inclusive. */
  function BrowserUnit(bytes: nat): (u: SizeUnit)
    ensures u != GB
    ensures u == Bytes <==> bytes < KiB
    ensures u == KB <==> KiB <= bytes < MiB
    ensures u == MB <==> MiB <= bytes
  {
    if bytes >= MiB then MB
    else if bytes >= KiB then KB
    else Bytes
  }

  /** Unit chosen by the notifier: as the browser's, plus GB from 1 GiB. */
  function GoUnit(size: nat): (u: SizeUnit)
    ensures u == Bytes <==> size < KiB
    ensures u == KB <==> KiB <= size < MiB
    ensures u == MB <==> MiB <= size < GiB
    ensures u == GB <==> GiB <= size
  {
    if size >= GiB then GB
    else if size >= MiB then MB
    else if size >= KiB then KB
    else Bytes
  }

  /** The integer part of a two-decimal rendering has no leading zero:
      it is "0" itself or starts with a non-zero digit. */
  predicate NoLeadingZero(s: string) {
    |s| >= 4 && (s[0] != '0' || |s| == 4)
  }

  /** A hundredths count printed with exactly two decimals, as `toFixed(2)`
      and `%.2f` print it. */
  function Fixed2(h: nat): (s: string)
    ensures |s| >= 4 && s[|s| - 3] == '.'
    ensures NoLeadingZero(s)
  {
    var ip := NatToString(h / 100);
    var s := ip + "." + [DigitChar(h / 10 % 10), DigitChar(h % 10)];
    assert s[0] == ip[0];
    s
  }

  /** Reads a string of the shape `<digits>.<digit><digit>` back into
      hundredths. */
  function ReadFixed2(s: string): Option<nat> {
    if |s| >= 4 && s[|s| - 3] == '.' && AllDigits(s[..|s| - 3])
       && IsDigit(s[|s| - 2]) && IsDigit(s[|s| - 1])
    then Some(100 * ParseDecimal(s[..|s| - 3]) + 10 * DigitValue(s[|s| - 2]) + DigitValue(s[|s| - 1]))
    else None
  }

  /** Two-decimal rendering is read back exactly. */
  lemma Fixed2RoundTrip(h: nat)
    ensures ReadFixed2(Fixed2(h)) == Some(h)
  {
    var s := Fixed2(h);
    var ip := NatToString(h / 100);
    assert s[..|s| - 3] == ip;
    assert s[|s| - 2] == DigitChar(h / 10 % 10);
    assert s[|s| - 1] == DigitChar(h % 10);
    ParseNatToString(h / 100);
    DigitRoundTrip(h / 10 % 10);
    DigitRoundTrip(h % 10);
  }

  /** The browser formatter shared by the upload form and the preview page. */
  function BrowserFormatFileSize(bytes: nat): (s: string)
    ensures bytes < KiB ==> s == NatToString(bytes) + " B"
    ensures bytes >= KiB ==> exists digits :: s == digits + " " + BrowserUnit(bytes).Name()
                                         && NoLeadingZero(digits)
                                         && ReadFixed2(digits) == Some(Rounding.HalfUp(100 * bytes, BrowserUnit(bytes).Scale()))
  {
    var u := BrowserUnit(bytes);
    if u == Bytes then NatToString(bytes) + " B"
    else
      var digits := Fixed2(Rounding.HalfUp(100 * bytes, u.Scale()));
      Fixed2RoundTrip(Rounding.HalfUp(100 * bytes, u.Scale()));
      digits + " " + u.Name()
  }

  /** The notifier's formatter (`formatFileSize` in the Telegram service). */
  function GoFormatFileSize(size: nat): (s: string)
    ensures size < KiB ==> s == NatToString(size) + " B"
    ensures size >= KiB ==> exists digits :: s == digits + " " + GoUnit(size).Name()
                                        && NoLeadingZero(digits)
                                        && ReadFixed2(digits) == Some(Rounding.HalfEven(100 * size, GoUnit(size).Scale()))
  {
    var u := GoUnit(size);
    if u == Bytes then NatToString(size) + " B"
    else
      var digits := Fixed2(Rounding.HalfEven(100 * size, u.Scale()));
      Fixed2RoundTrip(Rounding.HalfEven(100 * size, u.Scale()));
      digits + " " + u.Name()
  }

  /** Below 1 GiB both formatters pick the same unit, and below 1 KiB they
      print the same text. */
  lemma UnitsAgreeBelowGiB(size: nat)
    requires size < GiB
    ensures GoUnit(size) == BrowserUnit(size)
    ensures size < KiB ==> GoFormatFileSize(size) == BrowserFormatFileSize(size)
  {
  }

  /** The two roundings differ on exact ties: 1152 bytes is 1.125 KiB,
      which the browser prints as "1.13 KB" and Go as "1.12 KB". */
  lemma TieRoundingDiffers()
    ensures Rounding.HalfUp(100 * 1152, KiB) == 113
    ensures Rounding.HalfEven(100 * 1152, KiB) == 112
  {
  }

  /** Size strings promised for the pages: "0 B", "1023 B", "1.50 KB",
      "1.00 MB". */
  lemma BrowserExamples()
    ensures BrowserFormatFileSize(0) == "0 B"
    ensures BrowserFormatFileSize(1023) == "1023 B"
    ensures BrowserFormatFileSize(1536) == "1.50 KB"
    ensures BrowserFormatFileSize(1048576) == "1.00 MB"
  {
    BytesExample();
    KiBExample();
    MiBExample();
  }

  lemma BytesExample()
    ensures BrowserFormatFileSize(0) == "0 B"
    ensures BrowserFormatFileSize(1023) == "1023 B"
  {
    assert NatToString(1023) == NatToString(102) + "3";
    assert NatToString(102) == NatToString(10) + "2";
    assert NatToString(10) == "10";
  }

  lemma KiBExample()
    ensures BrowserFormatFileSize(1536) == "1.50 KB"
  {
    assert Rounding.HalfUp(100 * 1536, KiB) == 150;
    assert NatToString(1) == "1";
    assert DigitChar(5) == '5' && DigitChar(0) == '0';
    assert Fixed2(150) == NatToString(1) + "." + [DigitChar(5), DigitChar(0)];
  }

  lemma MiBExample()
    ensures BrowserFormatFileSize(1048576) == "1.00 MB"
  {
    assert Rounding.HalfUp(100 * 1048576, MiB) == 100;
    assert NatToString(1) == "1";
    assert DigitChar(0) == '0';
    assert Fixed2(100) == NatToString(1) + "." + [DigitChar(0), DigitChar(0)];
  }
}
