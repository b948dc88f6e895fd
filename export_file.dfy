// The export file name built in src/main.rs from the local date:
// `format!("{:02}-{:02}-{}", day, month, year)` and
// `format!("dd-unqueried-metrics-{}.csv", formatted_date)`.

module ExportFile {
  import opened Decimal

  datatype Option<T> = None | Some(value: T)

  /** The fields of chrono's local date that the name uses. */
  datatype LocalDate = LocalDate(day: int, month: int, year: int)

  /** Day and month as chrono reports them. */
  predicate IsCalendarDate(d: LocalDate) {
    1 <= d.day <= 31 && 1 <= d.month <= 12
  }

  const FilePrefix: string := "dd-unqueried-metrics-"
  const FileExtension: string := ".csv"

  /** Reads `DD-MM-Y` text back into a date: two digits, `-`, two digits,
      `-`, then a signed decimal year of any length. */
  function ParseDate(s: string): Option<LocalDate> {
    if |s| >= 7 && IsDigit(s[0]) && IsDigit(s[1]) && s[2] == '-' &&
       IsDigit(s[3]) && IsDigit(s[4]) && s[5] == '-' && IsIntegerText(s[6..])
    then
      assert AllDigits(s[0..2]) && AllDigits(s[3..5]);
      Some(LocalDate(Value(s[0..2]), Value(s[3..5]), ParseInteger(s[6..])))
    else
      None
  }

  /** `formatted_date`: day and month always take two zero-padded
      characters, so the separators sit at positions 2 and 5; the year
      follows unpadded; and the text reads back as the date. */
  function FormatDate(d: LocalDate): (s: string)
    requires IsCalendarDate(d)
    ensures |s| >= 7 && s[2] == '-' && s[5] == '-'
    ensures ParseDate(s) == Some(d)
    ensures s[0..2] == Pad2(d.day) && s[3..5] == Pad2(d.month)
    ensures s[6..] == FormatInteger(d.year) && IsShortestIntegerText(s[6..])
  {
    var dd, mm, yyyy := Pad2(d.day), Pad2(d.month), FormatInteger(d.year);
    var s := dd + "-" + mm + "-" + yyyy;
    assert s[0..2] == dd && s[3..5] == mm && s[6..] == yyyy;
    s
  }

  /** Position by position: characters 0-1 read back as the day, 3-4 as the
      month, and everything after the second `-` as the year. */
  lemma FormatDateParts(d: LocalDate)
    requires IsCalendarDate(d)
    ensures var s := FormatDate(d);
      AllDigits(s[0..2]) && Value(s[0..2]) == d.day &&
      AllDigits(s[3..5]) && Value(s[3..5]) == d.month &&
      IsIntegerText(s[6..]) && ParseInteger(s[6..]) == d.year
  {
    var s := FormatDate(d);
    assert ParseDate(s) == Some(d);
  }

  /** Reads an export file name back into its date. */
  function ParsePath(p: string): Option<LocalDate> {
    if |p| >= |FilePrefix| + |FileExtension| &&
       p[..|FilePrefix|] == FilePrefix && p[|p| - |FileExtension|..] == FileExtension
    then ParseDate(p[|FilePrefix|..|p| - |FileExtension|])
    else None
  }

  /** `path`: the fixed prefix, the formatted date, the `.csv` extension. */
  function ExportPath(d: LocalDate): (p: string)
    requires IsCalendarDate(d)
    ensures |p| >= |FilePrefix| + |FileExtension|
    ensures p[..|FilePrefix|] == FilePrefix
    ensures p[|p| - |FileExtension|..] == FileExtension
    ensures p[|FilePrefix|..|p| - |FileExtension|] == FormatDate(d)
    ensures ParsePath(p) == Some(d)
  {
    var p := FilePrefix + FormatDate(d) + FileExtension;
    assert p[|FilePrefix|..|p| - |FileExtension|] == FormatDate(d);
    p
  }

  /** Two dates give the same file name only if they are the same date, so
      a same-day re-run is the only way to reuse a name. */
  lemma ExportPathInjective(d1: LocalDate, d2: LocalDate)
    requires IsCalendarDate(d1) && IsCalendarDate(d2)
    requires ExportPath(d1) == ExportPath(d2)
    ensures d1 == d2
  {
    assert Some(d1) == ParsePath(ExportPath(d1));
  }

  /** The date text for 3 January 2024. */
  lemma FormatDateExample()
    ensures FormatDate(LocalDate(3, 1, 2024)) == "03-01-2024"
  {
    assert Digits(2) == "2" && Digits(20) == "20" && Digits(202) == "202";
    assert Digits(2024) == "2024";
    assert Pad2(3) == "03" && Pad2(1) == "01";
  }

  /** A year below 1000 is printed by `{}` without padding. */
  lemma FormatDateShortYearExample()
    ensures FormatDate(LocalDate(25, 12, 987)) == "25-12-987"
  {
    assert Digits(9) == "9" && Digits(98) == "98";
    assert Digits(987) == "987";
    assert Pad2(25) == "25" && Pad2(12) == "12";
  }

  /** The file name for 3 January 2024. */
  lemma ExportPathExample()
    ensures ExportPath(LocalDate(3, 1, 2024)) == "dd-unqueried-metrics-03-01-2024.csv"
  {
    FormatDateExample();
  }
}
