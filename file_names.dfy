/**
 * Names of the CSV files the export writes: `output/<start>_<end>_<sensor>.csv`,
 * where a date is the text before the first space with its dashes removed.
 */
module FileNames {

  /** `s.split(' ')[0]`: the text before the first space, all of `s` when it has none. */
  function BeforeSpace(s: string): (r: string)
    ensures r <= s && ' ' !in r
    ensures |r| < |s| ==> s[|r|] == ' '
  {
    if s == [] || s[0] == ' ' then [] else [s[0]] + BeforeSpace(s[1..])
  }

  /** `s.replace('-', '')`: `s` with every dash dropped. */
  function WithoutDashes(s: string): (r: string)
    ensures '-' !in r && |r| <= |s|
  {
    if s == [] then []
    else (if s[0] == '-' then [] else [s[0]]) + WithoutDashes(s[1..])
  }

  /** The date stem of a `YYYY-MM-DD HH:MM:SS` text. */
  function DatePart(s: string): string
  {
    WithoutDashes(BeforeSpace(s))
  }

  /** The decimal text of a sensor id, as Python's `str` of an int gives it. */
  function Decimal(n: nat): (r: string)
    ensures |r| > 0 && IsDigits(r)
  {
    if n < 10 then [Digit(n)] else Decimal(n / 10) + [Digit(n % 10)]
  }

  function Digit(d: nat): char
    requires d < 10
  {
    ('0' as int + d) as char
  }

  predicate IsDigits(s: string)
  {
    forall i :: 0 <= i < |s| ==> '0' <= s[i] <= '9'
  }

  /** The number a digit string denotes; the inverse of `Decimal`. */
  function DigitsValue(s: string): nat
    requires IsDigits(s)
  {
    if s == [] then 0 else DigitsValue(s[..|s| - 1]) * 10 + (s[|s| - 1] as int - '0' as int)
  }

  /**
   * `os.path.join("output", f"{D(start)}_{D(end)}_{sensor_id}.csv")` with the
   * POSIX separator, where `D` is `DatePart`.
   */
  function CsvPath(sensor: nat, startText: string, endText: string): string
  {
    "output/" + DatePart(startText) + "_" + DatePart(endText) + "_" + Decimal(sensor) + ".csv"
  }

  /** The text before a space that `head` does not contain is `head` itself. */
  lemma {:induction false} BeforeSpaceOfHead(head: string, rest: string)
    requires ' ' !in head
    ensures BeforeSpace(head + " " + rest) == head
  {
    if head != [] {
      assert (head + " " + rest)[1..] == head[1..] + " " + rest;
      BeforeSpaceOfHead(head[1..], rest);
    } else {
      assert (head + " " + rest)[0] == ' ';
    }
  }

  /** Dropping dashes works piecewise over a concatenation. */
  lemma {:induction false} WithoutDashesAppend(a: string, b: string)
    ensures WithoutDashes(a + b) == WithoutDashes(a) + WithoutDashes(b)
  {
    if a != [] {
      assert (a + b)[1..] == a[1..] + b;
      WithoutDashesAppend(a[1..], b);
    } else {
      assert a + b == b;
    }
  }

  /** A text without dashes is left as it is. */
  lemma {:induction false} WithoutDashesKeeps(s: string)
    requires '-' !in s
    ensures WithoutDashes(s) == s
  {
    if s != [] {
      WithoutDashesKeeps(s[1..]);
    }
  }

  /**
   * For a date text `Y-M-D rest` whose parts hold neither a dash nor a space,
   * the date stem is `YMD`.
   */
  lemma DatePartOfStamp(y: string, m: string, d: string, rest: string)
    requires '-' !in y && '-' !in m && '-' !in d
    requires ' ' !in y && ' ' !in m && ' ' !in d
    ensures DatePart(y + "-" + m + "-" + d + " " + rest) == y + m + d
  {
    var head := y + "-" + m + "-" + d;
    assert ' ' !in head;
    BeforeSpaceOfHead(head, rest);
    assert WithoutDashes("-") == [];
    WithoutDashesKeeps(y);
    WithoutDashesKeeps(m);
    WithoutDashesKeeps(d);
    WithoutDashesAppend(y, "-");
    assert WithoutDashes(y + "-") == y + [] == y;
    WithoutDashesAppend(y + "-", m);
    WithoutDashesAppend(y + "-" + m, "-");
    assert WithoutDashes(y + "-" + m + "-") == (y + m) + [] == y + m;
    WithoutDashesAppend(y + "-" + m + "-", d);
  }

  /** The stem of the start text used by the export script. */
  lemma DatePartExample()
    ensures DatePart("2023-12-01 16:30:00") == "20231201"
  {
    var y, m, d, rest := "2023", "12", "01", "16:30:00";
    assert "2023-12-01 16:30:00" == y + "-" + m + "-" + d + " " + rest;
    assert '-' !in y && '-' !in m && '-' !in d;
    assert ' ' !in y && ' ' !in m && ' ' !in d;
    DatePartOfStamp(y, m, d, rest);
    assert y + m + d == "20231201";
  }

  /** Reading back the decimal text of a sensor id gives the id. */
  lemma {:induction false} DecimalRoundTrip(n: nat)
    ensures DigitsValue(Decimal(n)) == n
  {
    if n >= 10 {
      DecimalRoundTrip(n / 10);
      var r := Decimal(n);
      assert r[..|r| - 1] == Decimal(n / 10);
    }
  }

  /** Two sensors of the same window never share a CSV file name. */
  lemma CsvPathsDistinct(a: nat, b: nat, startText: string, endText: string)
    requires a != b
    ensures CsvPath(a, startText, endText) != CsvPath(b, startText, endText)
  {
    var prefix := "output/" + DatePart(startText) + "_" + DatePart(endText) + "_";
    var pa, pb := CsvPath(a, startText, endText), CsvPath(b, startText, endText);
    assert pa == prefix + (Decimal(a) + ".csv");
    assert pb == prefix + (Decimal(b) + ".csv");
    if pa == pb {
      var da, db := Decimal(a), Decimal(b);
      assert |da| == |db|;
      assert da == pa[|prefix|..|prefix| + |da|];
      assert db == pb[|prefix|..|prefix| + |db|];
      DecimalRoundTrip(a);
      DecimalRoundTrip(b);
      assert false;
    }
  }
}
