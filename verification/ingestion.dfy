/** The download task list of the ingestion phase: for each taxi type and month, the
    monthly trip file's URL and its local destination. */
module Ingestion {
  import opened Wrappers

  const TlcBaseUrl: string := "https://d37ci6vzurychx.cloudfront.net/trip-data"
  const TaxiTypes: seq<string> := ["yellow", "green"]
  const Year2025: int := 2025
  const Year2024: int := 2024

  /** `range(1, 13)`. */
  const AllMonths: seq<int> := [1, 2, 3, 4, 5, 6, 7, 8, 9, 10, 11, 12]

  /** The first quarter, the 2024 baseline. */
  const FirstQuarter: seq<int> := [1, 2, 3]

  datatype DownloadTask = DownloadTask(url: string, dest: string)

  // ---------------------------------------------------------------------------------
  // Decimal text

  predicate IsDigit(c: char) {
    '0' <= c <= '9'
  }

  function DigitChar(d: int): (c: char)
    requires 0 <= d < 10
    ensures IsDigit(c)
  {
    ('0' as int + d) as char
  }

  function DigitValue(c: char): (d: int)
    requires IsDigit(c)
    ensures 0 <= d < 10 && DigitChar(d) == c
  {
    c as int - '0' as int
  }

  /** The decimal digits of `n`, most significant first, without leading zeros. */
  function Digits(n: nat): (s: string)
    ensures |s| > 0
    ensures forall i :: 0 <= i < |s| ==> IsDigit(s[i])
    ensures (s[0] == '0') <==> n == 0
    ensures n < 10 ==> |s| == 1
    ensures 10 <= n < 100 ==> |s| == 2
  {
    if n < 10 then [DigitChar(n)] else Digits(n / 10) + [DigitChar(n % 10)]
  }

  /** Python's `str` of an integer. */
  function DecimalString(n: int): string {
    if n < 0 then "-" + Digits(-n) else Digits(n)
  }

  /** `f"{m:02d}"`: at least two characters, zero-filled after any sign. */
  function ZeroPad2(m: int): (s: string)
    ensures 0 <= m < 100 ==> |s| == 2 && IsDigit(s[0]) && IsDigit(s[1])
  {
    if 0 <= m < 10 then "0" + Digits(m) else DecimalString(m)
  }

  /** The value of a string of decimal digits. */
  function ParseDigits(s: string): nat
    requires forall i :: 0 <= i < |s| ==> IsDigit(s[i])
  {
    if |s| == 0 then 0 else ParseDigits(s[..|s| - 1]) * 10 + DigitValue(s[|s| - 1])
  }

  lemma {:induction false} DigitsRoundTrip(n: nat)
    ensures ParseDigits(Digits(n)) == n
  {
    if n >= 10 {
      var s := Digits(n);
      assert s[..|s| - 1] == Digits(n / 10);
      DigitsRoundTrip(n / 10);
    }
  }

  /** A two-digit month field reads back as the month. */
  lemma ZeroPad2RoundTrip(m: int)
    requires 0 <= m < 100
    ensures ParseDigits(ZeroPad2(m)) == m
  {
    var s := ZeroPad2(m);
    if m < 10 {
      assert s[..1] == "0";
      assert ParseDigits(s[..1]) == 0 by { assert s[..1][..0] == []; }
    } else {
      DigitsRoundTrip(m);
    }
  }

  // ---------------------------------------------------------------------------------
  // File names and paths

  const Infix: string := "_tripdata_"
  const Suffix: string := ".parquet"

  /** `f"{taxi}_tripdata_{year}-{month:02d}.parquet"`. */
  function Filename(taxi: string, year: int, month: int): string {
    taxi + Infix + DecimalString(year) + "-" + ZeroPad2(month) + Suffix
  }

  /** POSIX `os.path.join` of two components. */
  function PathJoin(dir: string, name: string): (p: string)
    ensures |name| <= |p| && p[|p| - |name|..] == name
  {
    if |name| > 0 && name[0] == '/' then name
    else if |dir| == 0 || dir[|dir| - 1] == '/' then dir + name
    else dir + "/" + name
  }

  function Url(name: string): string {
    TlcBaseUrl + "/" + name
  }

  function TaskFor(rawDir: string, taxi: string, year: int, month: int): DownloadTask {
    var name := Filename(taxi, year, month);
    DownloadTask(Url(name), PathJoin(rawDir, name))
  }

  /** The tasks of one taxi type, month by month. */
  function MonthTasks(rawDir: string, year: int, months: seq<int>, taxi: string): seq<DownloadTask>
  {
    seq(|months|, j requires 0 <= j < |months| => TaskFor(rawDir, taxi, year, months[j]))
  }

  /** The blocks one after the other. */
  function Flatten<T>(blocks: seq<seq<T>>): seq<T> {
    if |blocks| == 0 then [] else blocks[0] + Flatten(blocks[1..])
  }

  /** `i` blocks of `n` elements: the position where block `i` starts. */
  function Offset(i: nat, n: nat): nat {
    if i == 0 then 0 else n + Offset(i - 1, n)
  }

  lemma {:induction false} OffsetIsProduct(i: nat, n: nat)
    ensures Offset(i, n) == i * n
  {
    if i > 0 {
      OffsetIsProduct(i - 1, n);
      assert i * n == (i - 1) * n + n;
    }
  }

  /** Every block has exactly `n` elements. */
  predicate Uniform<T>(blocks: seq<seq<T>>, n: nat) {
    forall k :: 0 <= k < |blocks| ==> |blocks[k]| == n
  }

  lemma {:induction false} FlattenLength<T>(blocks: seq<seq<T>>, n: nat)
    requires Uniform(blocks, n)
    ensures |Flatten(blocks)| == Offset(|blocks|, n)
  {
    if |blocks| > 0 {
      FlattenLength(blocks[1..], n);
    }
  }

  /** Element `j` of block `i` sits at `Offset(i, n) + j` of the flattened sequence. */
  lemma {:induction false} FlattenAt<T>(blocks: seq<seq<T>>, n: nat, i: nat, j: nat)
    requires Uniform(blocks, n) && i < |blocks| && j < n
    ensures Offset(i, n) + j < |Flatten(blocks)|
    ensures Flatten(blocks)[Offset(i, n) + j] == blocks[i][j]
  {
    var head, rest := blocks[0], Flatten(blocks[1..]);
    assert Flatten(blocks) == head + rest;
    if i > 0 {
      FlattenAt(blocks[1..], n, i - 1, j);
      assert blocks[1..][i - 1] == blocks[i];
    }
  }

  /** One block per taxi type, in the order of `taxis`. */
  function TaxiBlocks(rawDir: string, year: int, months: seq<int>, taxis: seq<string>): seq<seq<DownloadTask>> {
    seq(|taxis|, i requires 0 <= i < |taxis| => MonthTasks(rawDir, year, months, taxis[i]))
  }

  /** `generate_urls`: every month of the first taxi type, then of the next, and so on. */
  function GenerateUrls(rawDir: string, year: int, months: seq<int>, taxis: seq<string>): (r: seq<DownloadTask>)
    ensures |r| == |taxis| * |months|
  {
    var blocks := TaxiBlocks(rawDir, year, months, taxis);
    FlattenLength(blocks, |months|);
    OffsetIsProduct(|taxis|, |months|);
    Flatten(blocks)
  }

  /** Taxi-major order: task `i * |months| + j` fetches month `j` of taxi type `i`. */
  lemma TaxiMajorOrder(rawDir: string, year: int, months: seq<int>, taxis: seq<string>, i: nat, j: nat)
    requires i < |taxis| && j < |months|
    ensures i * |months| + j < |GenerateUrls(rawDir, year, months, taxis)|
    ensures GenerateUrls(rawDir, year, months, taxis)[i * |months| + j] == TaskFor(rawDir, taxis[i], year, months[j])
  {
    var blocks := TaxiBlocks(rawDir, year, months, taxis);
    FlattenAt(blocks, |months|, i, j);
    OffsetIsProduct(i, |months|);
    assert blocks[i][j] == TaskFor(rawDir, taxis[i], year, months[j]);
  }

  /** No taxi types or no months: nothing to download. */
  lemma EmptyInputsNoTasks(rawDir: string, year: int, months: seq<int>, taxis: seq<string>)
    requires |taxis| == 0 || |months| == 0
    ensures GenerateUrls(rawDir, year, months, taxis) == []
  {
  }

  /** The URL and the destination of a task end with the same file name, and the URL is
      that name under the base URL. */
  lemma UrlAndDestShareFilename(rawDir: string, taxi: string, year: int, month: int)
    ensures var t := TaskFor(rawDir, taxi, year, month); var name := Filename(taxi, year, month);
            && t.url[..|TlcBaseUrl| + 1] == TlcBaseUrl + "/"
            && t.url[|TlcBaseUrl| + 1..] == name
            && t.dest[|t.dest| - |name|..] == name
  {
  }

  // ---------------------------------------------------------------------------------
  // Reading a file name back

  /** Length of the run of digits at the end of `s`. */
  function TrailingDigits(s: string): (k: nat)
    ensures k <= |s|
    ensures forall i :: |s| - k <= i < |s| ==> IsDigit(s[i])
    ensures k < |s| ==> !IsDigit(s[|s| - k - 1])
  {
    if |s| == 0 || !IsDigit(s[|s| - 1]) then 0 else TrailingDigits(s[..|s| - 1]) + 1
  }

  /** `f` without the ending `suffix`, if it has it. */
  function StripSuffix(f: string, suffix: string): Option<string> {
    if |suffix| <= |f| && f[|f| - |suffix|..] == suffix then Some(f[..|f| - |suffix|]) else None
  }

  /** Splits off an ending `-<d><d>`: the text before it and the two-digit number. */
  function SplitMonth(g: string): Option<(string, int)> {
    if |g| < 3 || g[|g| - 3] != '-' || !IsDigit(g[|g| - 2]) || !IsDigit(g[|g| - 1]) then None
    else Some((g[..|g| - 3], ParseDigits(g[|g| - 2..]) as int))
  }

  /** Splits off the run of digits at the end: the text before it and its value. */
  function SplitYear(b: string): Option<(string, int)> {
    var k := TrailingDigits(b);
    if k == 0 then None else Some((b[..|b| - k], ParseDigits(b[|b| - k..]) as int))
  }

  /** Reads `<taxi>_tripdata_<year>-<MM>.parquet` back into (taxi type, year, month). */
  function ParseFilename(f: string): Option<(string, int, int)> {
    var g := StripSuffix(f, Suffix);
    if g.None? then None
    else
      var m := SplitMonth(g.value);
      if m.None? then None
      else
        var y := SplitYear(m.value.0);
        if y.None? then None
        else
          var taxi := StripSuffix(y.value.0, Infix);
          if taxi.None? then None else Some((taxi.value, y.value.1, m.value.1))
  }

  lemma StripSuffixOf(a: string, suffix: string)
    ensures StripSuffix(a + suffix, suffix) == Some(a)
  {
    assert (a + suffix)[|a|..] == suffix;
    assert (a + suffix)[..|a|] == a;
  }

  lemma SplitMonthOf(a: string, ms: string)
    requires |ms| == 2 && IsDigit(ms[0]) && IsDigit(ms[1])
    ensures SplitMonth(a + "-" + ms) == Some((a, ParseDigits(ms) as int))
  {
    var g := a + "-" + ms;
    assert g[|g| - 2..] == ms;
    assert g[..|g| - 3] == a;
  }

  lemma {:induction false} TrailingDigitsOfNumber(p: string, d: string)
    requires |p| > 0 && !IsDigit(p[|p| - 1])
    requires forall i :: 0 <= i < |d| ==> IsDigit(d[i])
    ensures TrailingDigits(p + d) == |d|
  {
    if |d| > 0 {
      assert (p + d)[..|p + d| - 1] == p + d[..|d| - 1];
      TrailingDigitsOfNumber(p, d[..|d| - 1]);
    } else {
      assert p + d == p;
    }
  }

  lemma SplitYearOf(p: string, ys: string)
    requires |p| > 0 && !IsDigit(p[|p| - 1])
    requires |ys| > 0 && forall i :: 0 <= i < |ys| ==> IsDigit(ys[i])
    ensures SplitYear(p + ys) == Some((p, ParseDigits(ys) as int))
  {
    TrailingDigitsOfNumber(p, ys);
    var b := p + ys;
    assert b[..|b| - |ys|] == p;
    assert b[|b| - |ys|..] == ys;
  }

  /** A file name built from a taxi type, a non-negative year and a month 0..99 reads back
      as exactly those three values. */
  lemma FilenameRoundTrip(taxi: string, year: int, month: int)
    requires year >= 0 && 0 <= month < 100
    ensures ParseFilename(Filename(taxi, year, month)) == Some((taxi, year, month))
  {
    var ys, ms := Digits(year), ZeroPad2(month);
    var p := taxi + Infix;
    assert Filename(taxi, year, month) == p + ys + "-" + ms + Suffix;
    StripSuffixOf(p + ys + "-" + ms, Suffix);
    SplitMonthOf(p + ys, ms);
    assert p[|p| - 1] == '_';
    SplitYearOf(p, ys);
    StripSuffixOf(taxi, Infix);
    ZeroPad2RoundTrip(month);
    DigitsRoundTrip(year);
  }

  lemma PrefixKeepsDifference(a: string, f1: string, f2: string)
    requires f1 != f2
    ensures a + f1 != a + f2
  {
    assert (a + f1)[|a|..] == f1;
    assert (a + f2)[|a|..] == f2;
  }

  /** Distinct (taxi type, month) pairs get distinct URLs, so no file is fetched twice. */
  lemma DistinctTasksDistinctUrls(taxi1: string, taxi2: string, year: int, month1: int, month2: int, rawDir: string)
    requires year >= 0 && 0 <= month1 < 100 && 0 <= month2 < 100
    requires taxi1 != taxi2 || month1 != month2
    ensures TaskFor(rawDir, taxi1, year, month1).url != TaskFor(rawDir, taxi2, year, month2).url
  {
    var f1, f2 := Filename(taxi1, year, month1), Filename(taxi2, year, month2);
    FilenameRoundTrip(taxi1, year, month1);
    FilenameRoundTrip(taxi2, year, month2);
    assert ParseFilename(f1) != ParseFilename(f2);
    PrefixKeepsDifference(TlcBaseUrl + "/", f1, f2);
  }

  // ---------------------------------------------------------------------------------
  // The ingestion run

  /** `run_ingestion`'s task list: every month of 2025, then the first quarter of 2024. */
  function IngestionTasks(rawDir: string): (r: seq<DownloadTask>)
    ensures |r| == 30
    ensures r[..24] == GenerateUrls(rawDir, Year2025, AllMonths, TaxiTypes)
    ensures r[24..] == GenerateUrls(rawDir, Year2024, FirstQuarter, TaxiTypes)
  {
    GenerateUrls(rawDir, Year2025, AllMonths, TaxiTypes) + GenerateUrls(rawDir, Year2024, FirstQuarter, TaxiTypes)
  }

  lemma YearDigits()
    ensures Digits(2025) == "2025" && Digits(2024) == "2024"
  {
    assert Digits(2) == "2";
    assert Digits(20) == "20";
    assert Digits(202) == "202";
  }

  lemma MonthText()
    ensures ZeroPad2(1) == "01" && ZeroPad2(3) == "03"
  {
    assert DigitChar(1) == '1' && DigitChar(3) == '3';
  }

  /** The first task fetches the January 2025 yellow file. */
  lemma FirstIngestionTask(rawDir: string)
    ensures IngestionTasks(rawDir)[0] == TaskFor(rawDir, "yellow", 2025, 1)
  {
    TaxiMajorOrder(rawDir, Year2025, AllMonths, TaxiTypes, 0, 0);
  }

  /** The last task fetches the March 2024 green file. */
  lemma LastIngestionTask(rawDir: string)
    ensures IngestionTasks(rawDir)[29] == TaskFor(rawDir, "green", 2024, 3)
  {
    TaxiMajorOrder(rawDir, Year2024, FirstQuarter, TaxiTypes, 1, 2);
  }

  /** The January 2025 yellow and March 2024 green file names. */
  lemma FilenameExamples()
    ensures Filename("yellow", 2025, 1) == "yellow_tripdata_2025-01.parquet"
    ensures Filename("green", 2024, 3) == "green_tripdata_2024-03.parquet"
  {
    YearDigits();
    MonthText();
    var a := "yellow" + Infix;
    assert a == "yellow_tripdata_";
    var b := a + "2025";
    assert b == "yellow_tripdata_2025";
    var c := b + "-" + "01";
    assert c == "yellow_tripdata_2025-01";
    assert c + Suffix == "yellow_tripdata_2025-01.parquet";
    var d := "green" + Infix;
    assert d == "green_tripdata_";
    var e := d + "2024";
    assert e == "green_tripdata_2024";
    var g := e + "-" + "03";
    assert g == "green_tripdata_2024-03";
    assert g + Suffix == "green_tripdata_2024-03.parquet";
  }
}
