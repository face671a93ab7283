/** The experience estimator of the matcher: total months of work history
    and the experience-level bands it is compared against. Dates arrive
    already parsed (year and month), and "now" is a parameter. */
module Experience {
  import opened Wrappers

  type Month = m: int | 1 <= m <= 12 witness 1

  datatype YearMonth = YearMonth(year: int, month: Month)

  /** A stored "YYYY-MM" text as `new Date(text + '-01')` sees it: missing or
      empty, not a date (an Invalid Date, whose month arithmetic gives NaN),
      or a calendar month. */
  datatype DateText = Blank | Unparseable | Parsed(at: YearMonth)

  /** One work-history entry of a profile. */
  datatype HistoryEntry = HistoryEntry(startDate: DateText, endDate: DateText, current: bool)

  /** The parsed experience JSON of a profile: something other than an array,
      or a list of entries. */
  datatype History = NotAList | Entries(entries: seq<HistoryEntry>)

  /** The experience levels a job may require (the job schema's enum). */
  datatype Level = Entry | Junior | Mid | Senior | Lead | Executive

  /** Whole months from `start` to `end`; negative when `end` is earlier. */
  function MonthsBetween(start: YearMonth, end: YearMonth): int {
    (end.year - start.year) * 12 + (end.month - start.month)
  }

  /** The month a blank end date stands for. An empty or missing end turns
      into the text "-01" or "undefined-01", which is no ISO date; the
      engine's fallback date parser reads it as January 2001. */
  const BlankEnd: YearMonth := YearMonth(2001, 1)

  /** The end of a non-current entry as the month arithmetic sees it. */
  function EndOf(d: DateText): DateText {
    if d.Blank? then Parsed(BlankEnd) else d
  }

  /** The months one entry adds to the total; None stands for NaN. */
  function EntryMonths(e: HistoryEntry, now: YearMonth): (r: Option<int>)
    ensures e.startDate.Blank? ==> r == Some(0)
    ensures r.None? <==> e.startDate.Unparseable? || (e.startDate.Parsed? && !e.current && e.endDate.Unparseable?)
    ensures e.startDate.Parsed? && e.current ==> r == Some(MonthsBetween(e.startDate.at, now))
    ensures e.startDate.Parsed? && !e.current && e.endDate.Parsed? ==> r == Some(MonthsBetween(e.startDate.at, e.endDate.at))
    ensures e.startDate.Parsed? && !e.current && e.endDate.Blank? ==> r == Some(MonthsBetween(e.startDate.at, BlankEnd))
  {
    match e.startDate
    case Blank => Some(0)
    case Unparseable => None
    case Parsed(start) =>
      var end := if e.current then Parsed(now) else EndOf(e.endDate);
      match end
      case Parsed(stop) => Some(MonthsBetween(start, stop))
      case _ => None
  }

  /** NaN-propagating addition. */
  function Plus(a: Option<int>, b: Option<int>): (r: Option<int>)
    ensures r.None? <==> a.None? || b.None?
    ensures r.Some? ==> r.value == a.value + b.value
  {
    if a.Some? && b.Some? then Some(a.value + b.value) else None
  }

  /** Sum of the months of every entry; NaN as soon as one entry is NaN. */
  function TotalMonths(es: seq<HistoryEntry>, now: YearMonth): (r: Option<int>)
    ensures r.None? <==> exists i :: 0 <= i < |es| && EntryMonths(es[i], now).None?
    decreases |es|
  {
    if |es| == 0 then Some(0)
    else
      var rest := TotalMonths(es[1..], now);
      assert forall i :: 1 <= i < |es| ==> es[i] == es[1..][i - 1];
      Plus(EntryMonths(es[0], now), rest)
  }

  /** Concurrent or overlapping jobs simply add: the total of two lists of
      entries is the sum of their totals. */
  lemma {:induction false} TotalMonthsAppend(a: seq<HistoryEntry>, b: seq<HistoryEntry>, now: YearMonth)
    ensures TotalMonths(a + b, now) == Plus(TotalMonths(a, now), TotalMonths(b, now))
    decreases |a|
  {
    if |a| == 0 {
      assert a + b == b;
    } else {
      assert (a + b)[0] == a[0];
      assert (a + b)[1..] == a[1..] + b;
      TotalMonthsAppend(a[1..], b, now);
    }
  }

  /** The order of the entries does not matter. */
  lemma TotalMonthsSwap(a: seq<HistoryEntry>, b: seq<HistoryEntry>, now: YearMonth)
    ensures TotalMonths(a + b, now) == TotalMonths(b + a, now)
  {
    TotalMonthsAppend(a, b, now);
    TotalMonthsAppend(b, a, now);
  }

  /** An entry without a start date is skipped: inserting it anywhere leaves
      the total unchanged. */
  lemma SkipsEntryWithoutStart(a: seq<HistoryEntry>, e: HistoryEntry, b: seq<HistoryEntry>, now: YearMonth)
    requires e.startDate.Blank?
    ensures TotalMonths(a + [e] + b, now) == TotalMonths(a + b, now)
  {
    TotalMonthsAppend(a + [e], b, now);
    TotalMonthsAppend(a, [e], now);
    TotalMonthsAppend(a, b, now);
    assert TotalMonths([e], now) == Some(0) by {
      assert [e][1..] == [];
    }
  }

  /** An end date before the start date is not clamped: it subtracts. */
  lemma NegativeSpanSubtracts(now: YearMonth)
    ensures TotalMonths([HistoryEntry(Parsed(YearMonth(2021, 6)), Parsed(YearMonth(2021, 1)), false)], now) == Some(-5)
  {
    var es := [HistoryEntry(Parsed(YearMonth(2021, 6)), Parsed(YearMonth(2021, 1)), false)];
    assert es[1..] == [];
  }

  /** `calculateYearsOfExperience`: total months over twelve, zero for a
      value that is not an array, None (NaN) when some entry is NaN. */
  function Years(h: History, now: YearMonth): (r: Option<real>)
    ensures h.NotAList? ==> r == Some(0.0)
    ensures h.Entries? ==> (r.None? <==> TotalMonths(h.entries, now).None?)
    ensures h.Entries? && r.Some? ==> r.value * 12.0 == TotalMonths(h.entries, now).value as real
  {
    match h
    case NotAList => Some(0.0)
    case Entries(es) =>
      match TotalMonths(es, now)
      case None => None
      case Some(m) => Some(m as real / 12.0)
  }

  /** `getMinYearsForLevel`; levels outside ENTRY/MID/SENIOR/LEAD have 0. */
  function MinYears(level: Level): nat {
    match level
    case Entry => 0
    case Mid => 2
    case Senior => 5
    case Lead => 8
    case _ => 0
  }

  /** `matchExperienceLevel`: whether `years` lies in the level's band. */
  predicate InBand(level: Level, years: real) {
    match level
    case Entry => 0.0 <= years <= 2.0
    case Mid => 2.0 <= years <= 5.0
    case Senior => 5.0 <= years <= 10.0
    case Lead => 8.0 <= years
    case _ => false
  }

  /** Every band starts at its level's minimum, and the levels outside the
      four banded ones are never in band. */
  lemma BandStartsAtMinimum(level: Level, years: real)
    ensures InBand(level, years) ==> years >= MinYears(level) as real
    ensures level == Junior || level == Executive ==> !InBand(level, years) && MinYears(level) == 0
  {
  }

  /** The years the experience criterion compares, when it applies at all:
      a required level and a stored history, and the total is not NaN. */
  function ComparedYears(level: Option<Level>, history: Option<History>, now: YearMonth): Option<real> {
    if level.Some? && history.Some? then Years(history.value, now) else None
  }

  /** The experience criterion: 20 in band, 10 above the level's minimum
      but outside the band, 0 otherwise or when it does not apply. */
  function ExperiencePoints(level: Option<Level>, history: Option<History>, now: YearMonth): (r: nat)
    ensures r == 0 || r == 10 || r == 20
    ensures var y := ComparedYears(level, history, now);
      r == 20 <==> y.Some? && InBand(level.value, y.value)
    ensures var y := ComparedYears(level, history, now);
      r == 10 <==> y.Some? && !InBand(level.value, y.value) && y.value > MinYears(level.value) as real
  {
    if level.Some? && history.Some? then
      match Years(history.value, now)
      case None => 0
      case Some(y) =>
        if InBand(level.value, y) then 20
        else if y > MinYears(level.value) as real then 10
        else 0
    else 0
  }

  /** LEAD's band has no upper end, so it can never earn the partial credit. */
  lemma LeadNeverPartial(history: Option<History>, now: YearMonth)
    ensures ExperiencePoints(Some(Lead), history, now) != 10
  {
  }

  /** A JUNIOR or EXECUTIVE job never gives full experience credit, and gives
      the partial credit for any positive experience. */
  lemma UnbandedLevels(level: Level, history: History, now: YearMonth)
    requires level == Junior || level == Executive
    ensures ExperiencePoints(Some(level), Some(history), now) != 20
    ensures ExperiencePoints(Some(level), Some(history), now) == 10 <==>
      Years(history, now).Some? && Years(history, now).value > 0.0
  {
  }

  /** A stored but empty history counts as zero years, which is in the ENTRY band. */
  lemma EmptyHistoryIsEntryLevel(now: YearMonth)
    ensures ExperiencePoints(Some(Entry), Some(Entries([])), now) == 20
    ensures ExperiencePoints(Some(Mid), Some(Entries([])), now) == 0
  {
  }

  /** An entry whose end is not a date makes the total NaN, and the
      criterion then gives nothing whatever the level. */
  lemma UnparseableEndGivesNothing(level: Level, start: YearMonth, end: DateText, now: YearMonth)
    requires end.Unparseable?
    ensures ExperiencePoints(Some(level), Some(Entries([HistoryEntry(Parsed(start), end, false)])), now) == 0
  {
    var es := [HistoryEntry(Parsed(start), end, false)];
    assert EntryMonths(es[0], now).None?;
  }

  /** A non-current entry with an empty end runs to January 2001: from
      January 1990 that is eleven years, in the LEAD band. */
  lemma BlankEndReadsAs2001(now: YearMonth)
    ensures TotalMonths([HistoryEntry(Parsed(YearMonth(1990, 1)), Blank, false)], now) == Some(132)
    ensures ExperiencePoints(Some(Lead), Some(Entries([HistoryEntry(Parsed(YearMonth(1990, 1)), Blank, false)])), now) == 20
  {
    var es := [HistoryEntry(Parsed(YearMonth(1990, 1)), Blank, false)];
    assert es[1..] == [];
    assert TotalMonths(es, now) == Some(132);
  }

  /** The history the mock resume parser returns: January 2022 with an empty
      end and no `current` flag, then March 2020 to December 2021. The first
      entry subtracts 252 months, so the total is negative and even the
      ENTRY band is missed. */
  lemma MockResumeHistoryIsNegative(now: YearMonth)
    ensures TotalMonths(MockResumeHistory(), now) == Some(-231)
    ensures ExperiencePoints(Some(Entry), Some(Entries(MockResumeHistory())), now) == 0
  {
    var es := MockResumeHistory();
    assert es[1..][1..] == [];
    assert TotalMonths(es[1..], now) == Some(21);
    assert TotalMonths(es, now) == Some(-231);
  }

  function MockResumeHistory(): seq<HistoryEntry> {
    [HistoryEntry(Parsed(YearMonth(2022, 1)), Blank, false),
     HistoryEntry(Parsed(YearMonth(2020, 3)), Parsed(YearMonth(2021, 12)), false)]
  }

  /** Nine years up to "now" on a current entry is in the SENIOR band. */
  lemma CurrentEntryUsesNow()
    ensures ExperiencePoints(Some(Senior),
      Some(Entries([HistoryEntry(Parsed(YearMonth(2015, 1)), Blank, true)])), YearMonth(2024, 1)) == 20
  {
    var es := [HistoryEntry(Parsed(YearMonth(2015, 1)), Blank, true)];
    assert es[1..] == [];
    assert TotalMonths(es, YearMonth(2024, 1)) == Some(108);
  }
}
