/** The CSV importer: the derived time columns it adds to every row, and the
    renaming of column headers into database column names. */
module Importer {
  import opened Common
  import opened TimeBuckets

  // ---------------------------------------------------------------------
  // Time columns

  /** `datetime.date(y, m, d)` accepts years 1..9999 and real calendar days
      only; anything else raises ValueError. */
  predicate PyDateValid(year: int, month: int, day: int)
  {
    1 <= year <= 9999 && ValidDate(Date(year, month, day))
  }

  /** `ymd_to_day_index`: days from 1970-01-01, or None for a date that
      `datetime.date` rejects. */
  function DayIndexOf(year: int, month: int, day: int): (r: Option<int>)
    ensures r.Some? <==> PyDateValid(year, month, day)
    ensures r.Some? ==> Civil(r.value) == Date(year, month, day)
  {
    if PyDateValid(year, month, day) then
      CivilOfDayIndex(Date(year, month, day));
      Some(DayIndex(year, month, day) - DayIndex(1970, 1, 1))
    else None
  }

  /** `ymd_to_week_index`: the day index floor-divided by 7. */
  function WeekIndexOf(year: int, month: int, day: int): (r: Option<int>)
    ensures r.Some? <==> PyDateValid(year, month, day)
    ensures r.Some? ==> 7 * r.value <= DayIndexOf(year, month, day).value < 7 * r.value + 7
  {
    match DayIndexOf(year, month, day)
    case None => None
    case Some(days) => Some(days / 7)
  }

  /** `ymd_to_month_index`: computed from the year and month alone, with no
      date check; January 1970 is month 1. */
  function MonthIndexOf(year: int, month: int, day: int): int
  {
    var month0 := 1970 * 12 + 1;
    year * 12 + month - month0 + 1
  }

  /** `ymd_to_day_of_year`: 1 for January 1st, or None for an invalid date. */
  function DayOfYear(year: int, month: int, day: int): (r: Option<int>)
    ensures r.Some? <==> PyDateValid(year, month, day)
    ensures r.Some? ==> 1 <= r.value <= YearLength(year)
    ensures r.Some? ==> Civil(DaysBeforeYear(year) + r.value - 1) == Date(year, month, day)
  {
    if PyDateValid(year, month, day) then
      var r := DaysBeforeMonth(year, month) + day;
      DateWithinYear(Date(year, month, day));
      CivilOfDayIndex(Date(year, month, day));
      assert DaysBeforeYear(year) + r - 1 == DayIndex(year, month, day);
      Some(r)
    else None
  }

  /** `ty_week`: the week of the year, counted from 1. */
  function WeekOfYear(dayOfYear: int): int
  {
    (dayOfYear - 1) / 7 + 1
  }

  /** The week of the year of any day of any year lies in 1..53. */
  lemma WeekOfYearRange(dayOfYear: int)
    requires 1 <= dayOfYear <= 366
    ensures 1 <= WeekOfYear(dayOfYear) <= 53
  {
  }

  /** The seven time columns added to one row. */
  datatype TimeColumns = TimeColumns(
    tYear: int, tDay: int, tWeek: int, tMonth: int,
    tyDay: int, tyWeek: int, tyMonth: int)

  /** The time columns of a row with columns m_year, m_month, m_day; None when
      its date makes `datetime.date` raise, which aborts the whole import. */
  function TimeColumnsOf(year: int, month: int, day: int): (r: Option<TimeColumns>)
    ensures r.Some? <==> PyDateValid(year, month, day)
  {
    match (DayIndexOf(year, month, day), WeekIndexOf(year, month, day), DayOfYear(year, month, day))
    case (Some(tDay), Some(tWeek), Some(tyDay)) =>
      Some(TimeColumns(year, tDay, tWeek, MonthIndexOf(year, month, day), tyDay, WeekOfYear(tyDay), month))
    case _ => None
  }

  /** The importer's bucket columns agree with the dashboard's conversions:
      a valid date's t_day, t_week, t_month and t_year are the day, week,
      month and year buckets of the timestamp `parseTime` gives its text, and
      its t_day bucket starts exactly there. */
  lemma TimeColumnsAgreeWithBuckets(year: int, month: int, day: int)
    requires PyDateValid(year, month, day)
    ensures var c := TimeColumnsOf(year, month, day).value;
            var ts := ParseTime(year, month, day);
            && c.tDay == TimestampToDays(ts)
            && DaysToTimestamp(c.tDay) == ts
            && c.tWeek == TimestampToWeeks(ts)
            && c.tMonth == TimestampToMonths(ts)
            && c.tYear == TimestampToYears(ts)
            && 1 <= c.tyWeek <= 53
            && c.tyMonth == month
  {
    var d := Date(year, month, day);
    var c := TimeColumnsOf(year, month, day).value;
    var days := DayIndex(year, month, day);
    ParseTimeValid(d);
    assert DayIndex(1970, 1, 1) == 0;
    assert c.tDay == days;
    assert TimestampToDays(ParseTime(year, month, day)) == days;
    MonthsOfDate(d);
    CivilOfDayIndex(d);
    WeekOfYearRange(c.tyDay);
  }

  // ---------------------------------------------------------------------
  // Column names

  /** `s.replace(c, sub)` for a one-character pattern. */
  function ReplaceChar(s: string, c: char, sub: string): (r: string)
  {
    if s == [] then []
    else (if s[0] == c then sub else [s[0]]) + ReplaceChar(s[1..], c, sub)
  }

  /** Replacing c by a text without c leaves no c, and a text without c
      is left as it is. */
  lemma {:induction false} ReplaceCharSpec(s: string, c: char, sub: string)
    ensures c !in sub ==> c !in ReplaceChar(s, c, sub)
    ensures c !in s ==> ReplaceChar(s, c, sub) == s
  {
    if s != [] {
      ReplaceCharSpec(s[1..], c, sub);
      assert s == [s[0]] + s[1..];
    }
  }

  /** A character in neither the text nor the replacement stays out. */
  lemma {:induction false} ReplaceCharKeepsOut(s: string, c: char, sub: string, e: char)
    requires e !in s && e !in sub
    ensures e !in ReplaceChar(s, c, sub)
  {
    if s != [] {
      assert e !in s[1..];
      ReplaceCharKeepsOut(s[1..], c, sub, e);
    }
  }

  /** `"m_" + x.replace(".", "_").replace("%", "percentage_")`. */
  function Sanitize(x: string): string
  {
    "m_" + ReplaceChar(ReplaceChar(x, '.', "_"), '%', "percentage_")
  }

  /** Every new name starts with "m_" and holds no '.' and no '%'; a name
      without those characters is only prefixed. */
  lemma SanitizeShape(x: string)
    ensures |Sanitize(x)| >= 2 && Sanitize(x)[..2] == "m_"
    ensures '.' !in Sanitize(x) && '%' !in Sanitize(x)
    ensures '.' !in x && '%' !in x ==> Sanitize(x) == "m_" + x
  {
    ReplaceCharSpec(x, '.', "_");
    ReplaceCharSpec(ReplaceChar(x, '.', "_"), '%', "percentage_");
    ReplaceCharKeepsOut(ReplaceChar(x, '.', "_"), '%', "percentage_", '.');
  }

  /** The name given to the count-th occurrence of a sanitized name. */
  function Suffixed(x: string, count: int): string
  {
    if count == 1 then x else x + "_" + IntToString(count)
  }

  /** The sanitized names of all columns, in order. */
  function SanitizedAll(cols: seq<string>): (s: seq<string>)
    ensures |s| == |cols|
  {
    if cols == [] then [] else SanitizedAll(cols[..|cols| - 1]) + [Sanitize(cols[|cols| - 1])]
  }

  lemma {:induction false} SanitizedAt(cols: seq<string>, k: int)
    requires 0 <= k < |cols|
    ensures SanitizedAll(cols)[k] == Sanitize(cols[k])
  {
    if k < |cols| - 1 {
      SanitizedAt(cols[..|cols| - 1], k);
    }
  }

  /** How many times x occurs in s. */
  function Occurrences(s: seq<string>, x: string): nat
  {
    if s == [] then 0
    else Occurrences(s[..|s| - 1], x) + (if s[|s| - 1] == x then 1 else 0)
  }

  /** Each name suffixed by how many times it has occurred up to and
      including its position. */
  function Numbered(s: seq<string>): (r: seq<string>)
    ensures |r| == |s|
  {
    if s == [] then []
    else Numbered(s[..|s| - 1]) + [Suffixed(s[|s| - 1], Occurrences(s, s[|s| - 1]))]
  }

  /** Numbering one more name appends its numbered form. */
  lemma NumberedStep(s: seq<string>, i: int)
    requires 0 <= i < |s|
    ensures Numbered(s[..i + 1]) == Numbered(s[..i]) + [Suffixed(s[i], Occurrences(s[..i], s[i]) + 1)]
  {
    assert s[..i + 1][..i] == s[..i];
  }

  /** The new headers: the sanitized names, numbered. */
  function Renamed(cols: seq<string>): (r: seq<string>)
    ensures |r| == |cols|
  {
    Numbered(SanitizedAll(cols))
  }

  /** A name that has not occurred before keeps its name. */
  lemma {:induction false} OccurrencesAbsent(s: seq<string>, x: string)
    requires x !in s
    ensures Occurrences(s, x) == 0
  {
    if s != [] {
      assert s[..|s| - 1] + [s[|s| - 1]] == s;
      OccurrencesAbsent(s[..|s| - 1], x);
    }
  }

  lemma NumberedFirstOccurrence(s: seq<string>, i: int)
    requires 0 <= i < |s|
    requires s[i] !in s[..i]
    ensures Numbered(s)[i] == s[i]
  {
    OccurrencesAbsent(s[..i], s[i]);
    NumberedAt(s, i, 0);
  }

  /** A column whose sanitized name has not occurred before keeps it. */
  lemma RenamedFirstOccurrence(cols: seq<string>, i: int)
    requires 0 <= i < |cols|
    requires forall j :: 0 <= j < i ==> Sanitize(cols[j]) != Sanitize(cols[i])
    ensures Renamed(cols)[i] == Sanitize(cols[i])
  {
    var s := SanitizedAll(cols);
    forall j | 0 <= j <= i
      ensures s[j] == Sanitize(cols[j])
    {
      SanitizedAt(cols, j);
    }
    NumberedFirstOccurrence(s, i);
  }

  lemma {:induction false} NumberedAt(s: seq<string>, i: int, c: int)
    requires 0 <= i < |s|
    requires c == Occurrences(s[..i], s[i])
    ensures Numbered(s)[i] == Suffixed(s[i], c + 1)
  {
    NumberedPrefix(s, i + 1);
    NumberedStep(s, i);
    assert Numbered(s)[i] == Numbered(s[..i + 1])[i];
  }

  /** A Counter's value for a key: 0 for a key not seen yet. */
  function CountIn(counter: map<string, nat>, x: string): nat
  {
    if x in counter then counter[x] else 0
  }

  /** The Counter after counting every name of t, in order. */
  function CounterOf(t: seq<string>): map<string, nat>
  {
    if t == [] then map[]
    else
      var c := CounterOf(t[..|t| - 1]);
      c[t[|t| - 1] := CountIn(c, t[|t| - 1]) + 1]
  }

  /** The Counter holds, for every name, how often it occurs. */
  lemma {:induction false} CounterOfCounts(t: seq<string>, x: string)
    ensures CountIn(CounterOf(t), x) == Occurrences(t, x)
  {
    if t != [] {
      CounterOfCounts(t[..|t| - 1], x);
    }
  }

  lemma CounterOfStep(s: seq<string>, i: int)
    requires 0 <= i < |s|
    ensures CounterOf(s[..i + 1]) == CounterOf(s[..i])[s[i] := CountIn(CounterOf(s[..i]), s[i]) + 1]
  {
    assert s[..i + 1][..i] == s[..i];
  }

  /** One step of the renaming: the Counter counts s[i] once more, and the
      numbering gains s[i] suffixed by its new count. */
  lemma RenameStep(s: seq<string>, i: int, x: string, c: map<string, nat>)
    requires 0 <= i < |s| && s[i] == x
    requires c == CounterOf(s[..i])
    ensures CounterOf(s[..i + 1]) == c[x := CountIn(c, x) + 1]
    ensures Numbered(s[..i + 1]) == Numbered(s[..i]) + [Suffixed(x, CountIn(c, x) + 1)]
  {
    CounterOfStep(s, i);
    CounterOfCounts(s[..i], x);
    NumberedStep(s, i);
  }

  /** The Counter of `prepare_table_for_mapd` and its `name_replacer`. */
  class ColumnRenamer {
    var counter: map<string, nat>

    constructor()
      ensures counter == map[]
    {
      counter := map[];
    }

    /** `ccounter[x]`: 0 for a name not seen yet. */
    function Count(x: string): nat
      reads this
    {
      CountIn(counter, x)
    }

    method Replace(x: string) returns (r: string)
      modifies this
      ensures counter == old(counter)[Sanitize(x) := CountIn(old(counter), Sanitize(x)) + 1]
      ensures r == Suffixed(Sanitize(x), CountIn(old(counter), Sanitize(x)) + 1)
    {
      var name := Sanitize(x);
      counter := counter[name := Count(name) + 1];
      if counter[name] == 1 {
        r := name;
      } else {
        r := name + "_" + IntToString(counter[name]);
      }
    }
  }

  /** `df.columns = [name_replacer(x) for x in df.columns]`. */
  method RenameColumns(cols: seq<string>) returns (out: seq<string>)
    ensures out == Renamed(cols)
  {
    var renamer := new ColumnRenamer();
    ghost var s := SanitizedAll(cols);
    out := [];
    for i := 0 to |cols|
      invariant out == Numbered(s[..i])
      invariant renamer.counter == CounterOf(s[..i])
    {
      var x := Sanitize(cols[i]);
      SanitizedAt(cols, i);
      ghost var c := renamer.counter;
      RenameStep(s, i, x, c);
      var name := renamer.Replace(cols[i]);
      assert renamer.counter == c[x := CountIn(c, x) + 1];
      out := out + [name];
    }
    assert s[..|cols|] == s;
  }

  /** Replacing works piece by piece over a concatenation. */
  lemma {:induction false} ReplaceCharAppend(s: string, t: string, c: char, sub: string)
    ensures ReplaceChar(s + t, c, sub) == ReplaceChar(s, c, sub) + ReplaceChar(t, c, sub)
  {
    if s != [] {
      assert (s + t)[0] == s[0] && (s + t)[1..] == s[1..] + t;
      ReplaceCharAppend(s[1..], t, c, sub);
    } else {
      assert s + t == t;
    }
  }

  /** x.b sanitises to m_x_b: its '.' becomes '_'. */
  lemma SanitizedDot(x: string)
    requires '.' !in x && '%' !in x
    ensures Sanitize(x + ".b") == "m_" + x + "_b"
  {
    var h := x + "_b";
    ReplaceCharAppend(x, ".b", '.', "_");
    ReplaceCharSpec(x, '.', "_");
    assert ReplaceChar(".b", '.', "_") == "_b";
    assert ReplaceChar(x + ".b", '.', "_") == h;
    assert '%' !in h;
    ReplaceCharSpec(h, '%', "percentage_");
  }

  /** x.b and x_b sanitise to the same name, and x_b_2 to that name with the suffix "_2". */
  lemma SanitizedCollide(x: string)
    requires '.' !in x && '%' !in x
    ensures Sanitize(x + ".b") == "m_" + x + "_b"
    ensures Sanitize(x + "_b") == "m_" + x + "_b"
    ensures Sanitize(x + "_b_2") == "m_" + x + "_b_2"
  {
    SanitizedDot(x);
    assert '.' !in x + "_b" && '%' !in x + "_b";
    SanitizeShape(x + "_b");
    assert '.' !in x + "_b_2" && '%' !in x + "_b_2";
    SanitizeShape(x + "_b_2");
  }

  /** Three distinct headers x.b, x_b and x_b_2 come out as m_x_b, m_x_b_2,
      m_x_b_2: a '.' sanitised to '_' makes the first two names equal, and
      the suffix given to the repeat collides with the third column. */
  lemma RenamedCollides(x: string)
    requires '.' !in x && '%' !in x
    ensures NoDuplicates([x + ".b", x + "_b", x + "_b_2"])
    ensures Renamed([x + ".b", x + "_b", x + "_b_2"]) == ["m_" + x + "_b", "m_" + x + "_b_2", "m_" + x + "_b_2"]
    ensures !NoDuplicates(Renamed([x + ".b", x + "_b", x + "_b_2"]))
  {
    var h0, h1, h2 := x + ".b", x + "_b", x + "_b_2";
    var cols := [h0, h1, h2];
    assert h0[|x|] == '.' && h1[|x|] == '_';
    assert |h1| != |h2|;
    var y := "m_" + x + "_b";
    SanitizedCollide(x);
    assert Sanitize(h2) == y + "_2";
    assert cols[..2] == [h0, h1] && cols[..2][..1] == [h0] && [h0][..0] == [];
    assert SanitizedAll([h0]) == [y];
    assert SanitizedAll([h0, h1]) == [y, y];
    assert SanitizedAll(cols) == [y, y, y + "_2"];
    NumberedCollides(y);
    var r := Renamed(cols);
    assert r[1] == r[2];
  }

  lemma NumberedCollides(y: string)
    ensures Numbered([y, y, y + "_2"]) == [y, y + "_2", y + "_2"]
  {
    var s := [y, y, y + "_2"];
    assert IntToString(2) == "2";
    assert Suffixed(y, 2) == y + "_2";
    assert s[..2] == [y, y] && [y, y][..1] == [y] && [y][..0] == [];
    assert Occurrences([y], y) == 1;
    assert Numbered([y]) == [y];
    assert Occurrences([y, y], y) == 2;
    assert Numbered([y, y]) == [y, y + "_2"];
    assert |y| < |y + "_2"|;
    assert Occurrences([y], y + "_2") == 0;
    assert Occurrences([y, y], y + "_2") == 0;
    assert Occurrences(s, y + "_2") == 1;
  }

  predicate NoDuplicates(names: seq<string>)
  {
    forall i, j :: 0 <= i < j < |names| ==> names[i] != names[j]
  }

  /** `c` is `x` followed by "_" and a decimal number of at least `k`. */
  ghost predicate SuffixAtLeast(x: string, c: string, k: int)
  {
    |c| > |x| + 1 && c[..|x| + 1] == x + "_"
    && (forall j :: |x| + 1 <= j < |c| ==> IsDigit(c[j]))
    && ParseNat(c[|x| + 1..]) >= k
  }

  /** `c` is `x` itself or `x` with a numeric suffix. */
  ghost predicate NameFor(x: string, c: string)
  {
    c == x || SuffixAtLeast(x, c, 2)
  }

  lemma SuffixedAtLeast(x: string, k: int)
    requires k >= 2
    ensures SuffixAtLeast(x, x + "_" + IntToString(k), k)
    ensures !SuffixAtLeast(x, x + "_" + IntToString(k), k + 1)
  {
    var c := x + "_" + IntToString(k);
    assert c[..|x| + 1] == x + "_";
    assert c[|x| + 1..] == NatToString(k);
    ParseNatToString(k);
  }

  lemma SubsetCardinality<T>(a: set<T>, b: set<T>)
    requires a <= b
    ensures |a| <= |b|
    decreases |b|
  {
    if a != {} {
      var e :| e in a;
      SubsetCardinality(a - {e}, b - {e});
    }
  }

  /** Numbering a prefix gives the prefix of the numbering. */
  lemma {:induction false} NumberedPrefix(s: seq<string>, n: int)
    requires 0 <= n <= |s|
    ensures Numbered(s[..n]) == Numbered(s)[..n]
  {
    if n == |s| {
      assert s[..n] == s;
    } else {
      var m := |s| - 1;
      NumberedPrefix(s[..m], n);
      assert s[..m][..n] == s[..n];
    }
  }

  ghost function SuffixSet(taken: seq<string>, x: string, k: int): set<string>
  {
    set c | c in taken && SuffixAtLeast(x, c, k)
  }

  /** Moving past a taken suffix leaves fewer taken suffixes ahead. */
  lemma SuffixSetShrinks(taken: seq<string>, x: string, k: int)
    requires k >= 2
    requires x + "_" + IntToString(k) in taken
    ensures |SuffixSet(taken, x, k + 1)| < |SuffixSet(taken, x, k)|
  {
    var c := x + "_" + IntToString(k);
    SuffixedAtLeast(x, k);
    var before, after := SuffixSet(taken, x, k), SuffixSet(taken, x, k + 1);
    assert after <= before - {c};
    SubsetCardinality(after, before - {c});
  }

  /** The index of the first of x's names, from the k-th on, not in taken. */
  function FreeIndex(x: string, k: int, taken: seq<string>): (r: int)
    requires k >= 1
    ensures r >= k && Suffixed(x, r) !in taken
    decreases if k == 1 then 1 else 0, |SuffixSet(taken, x, k)|
  {
    if Suffixed(x, k) !in taken then k
    else if k == 1 then FreeIndex(x, 2, taken)
    else
      SuffixSetShrinks(taken, x, k);
      FreeIndex(x, k + 1, taken)
  }

  /** A taken name moves the search one index on, with fewer taken suffixes ahead. */
  lemma FreeIndexStep(x: string, k: int, taken: seq<string>)
    requires k >= 1 && Suffixed(x, k) in taken
    ensures FreeIndex(x, k + 1, taken) == FreeIndex(x, k, taken)
    ensures k >= 2 ==> |SuffixSet(taken, x, k + 1)| < |SuffixSet(taken, x, k)|
  {
    if k >= 2 { SuffixSetShrinks(taken, x, k); }
  }

  /** Every name of the form Suffixed(x, k) is x or x with a suffix of at least 2. */
  lemma SuffixedNameFor(x: string, k: int)
    requires k >= 1
    ensures NameFor(x, Suffixed(x, k))
  {
    if k >= 2 { SuffixedAtLeast(x, k); }
  }

  /** The corrected numbering: each name takes the first of its numbered forms,
      from its occurrence count on, that no earlier name has taken. */
  function UniqueNumbered(s: seq<string>): (r: seq<string>)
    ensures |r| == |s|
  {
    if s == [] then []
    else
      var prev := UniqueNumbered(s[..|s| - 1]);
      var x := s[|s| - 1];
      prev + [Suffixed(x, FreeIndex(x, Occurrences(s, x), prev))]
  }

  lemma UniqueNumberedStep(s: seq<string>, i: int, x: string, n: int)
    requires 0 <= i < |s| && x == s[i]
    requires n == Occurrences(s[..i], x) + 1
    ensures UniqueNumbered(s[..i + 1]) == UniqueNumbered(s[..i]) + [Suffixed(x, FreeIndex(x, n, UniqueNumbered(s[..i])))]
  {
    assert s[..i + 1][..i] == s[..i];
  }

  /** The corrected numbering never gives two columns the same name. */
  lemma {:induction false} UniqueNumberedDistinct(s: seq<string>)
    ensures NoDuplicates(UniqueNumbered(s))
  {
    if s != [] {
      UniqueNumberedDistinct(s[..|s| - 1]);
    }
  }

  /** Each corrected name is its column's name, or that name with a numeric
      suffix of at least 2. */
  lemma {:induction false} UniqueNumberedNames(s: seq<string>, i: int)
    requires 0 <= i < |s|
    ensures NameFor(s[i], UniqueNumbered(s)[i])
  {
    var n := |s| - 1;
    if i < n {
      UniqueNumberedNames(s[..n], i);
    } else {
      SuffixedNameFor(s[n], FreeIndex(s[n], Occurrences(s, s[n]), UniqueNumbered(s[..n])));
    }
  }

  /** In a sequence without duplicates no element occurs before its position. */
  lemma NoDuplicatesFresh(t: seq<string>, i: int)
    requires NoDuplicates(t)
    requires 0 <= i < |t|
    ensures t[i] !in t[..i]
  {
  }

  /** Where the numbering as written has no duplicates, the corrected
      numbering is the same. */
  lemma {:induction false} UniqueNumberedAgrees(s: seq<string>)
    requires NoDuplicates(Numbered(s))
    ensures UniqueNumbered(s) == Numbered(s)
  {
    if s != [] {
      var n := |s| - 1;
      NumberedPrefix(s, n);
      assert NoDuplicates(Numbered(s[..n]));
      UniqueNumberedAgrees(s[..n]);
      NoDuplicatesFresh(Numbered(s), n);
    }
  }

  /** The corrected renaming of the headers. */
  function RenamedUnique(cols: seq<string>): (r: seq<string>)
    ensures |r| == |cols|
  {
    UniqueNumbered(SanitizedAll(cols))
  }

  /** The corrected headers are distinct, each is its column's sanitized name
      or that with a numeric suffix, and they are the headers as written
      whenever those are distinct. */
  lemma RenamedUniqueSpec(cols: seq<string>)
    ensures NoDuplicates(RenamedUnique(cols))
    ensures forall i :: 0 <= i < |cols| ==> NameFor(Sanitize(cols[i]), RenamedUnique(cols)[i])
    ensures NoDuplicates(Renamed(cols)) ==> RenamedUnique(cols) == Renamed(cols)
  {
    var s := SanitizedAll(cols);
    UniqueNumberedDistinct(s);
    forall i | 0 <= i < |cols|
      ensures NameFor(Sanitize(cols[i]), RenamedUnique(cols)[i])
    {
      SanitizedAt(cols, i);
      UniqueNumberedNames(s, i);
    }
    if NoDuplicates(Renamed(cols)) {
      UniqueNumberedAgrees(s);
    }
  }

  /** The first of x's names, from the start-th on, that is not taken. */
  method FirstFree(x: string, start: int, taken: seq<string>) returns (name: string)
    requires start >= 1
    ensures name == Suffixed(x, FreeIndex(x, start, taken))
  {
    var k := start;
    name := if k == 1 then x else x + "_" + IntToString(k);
    while name in taken
      invariant k >= 1 && name == Suffixed(x, k)
      invariant FreeIndex(x, k, taken) == FreeIndex(x, start, taken)
      decreases if k == 1 then 1 else 0, |SuffixSet(taken, x, k)|
    {
      FreeIndexStep(x, k, taken);
      k := k + 1;
      name := x + "_" + IntToString(k);
    }
  }

  /** The corrected renaming, driven by the same Counter as name_replacer: a
      suffix already taken by an earlier column is skipped. */
  method RenameColumnsUnique(cols: seq<string>) returns (out: seq<string>)
    ensures out == RenamedUnique(cols)
  {
    var renamer := new ColumnRenamer();
    ghost var s := SanitizedAll(cols);
    out := [];
    for i := 0 to |cols|
      invariant out == UniqueNumbered(s[..i])
      invariant renamer.counter == CounterOf(s[..i])
    {
      var x := Sanitize(cols[i]);
      SanitizedAt(cols, i);
      ghost var c := renamer.counter;
      ghost var n := CountIn(c, x) + 1;
      RenameUniqueStep(s, i, x, c);
      var first := renamer.Replace(cols[i]);
      assert renamer.counter == c[x := n] && renamer.Count(x) == n;
      var name := FirstFree(x, renamer.Count(x), out);
      assert out + [name] == UniqueNumbered(s[..i + 1]);
      out := out + [name];
    }
    assert s[..|cols|] == s;
  }

  /** One step of the corrected renaming: the Counter counts the sanitized
      name once more, and that count is where the search for a free name starts. */
  lemma RenameUniqueStep(s: seq<string>, i: int, x: string, c: map<string, nat>)
    requires 0 <= i < |s| && s[i] == x
    requires c == CounterOf(s[..i])
    ensures var n := CountIn(c, x) + 1;
            && CounterOf(s[..i + 1]) == c[x := n]
            && UniqueNumbered(s[..i + 1]) == UniqueNumbered(s[..i]) + [Suffixed(x, FreeIndex(x, n, UniqueNumbered(s[..i])))]
  {
    CounterOfStep(s, i);
    CounterOfCounts(s[..i], x);
    UniqueNumberedStep(s, i, x, CountIn(c, x) + 1);
  }
}
