/** The statistics helpers of `views/stats_views.py` (and their twins in the earlier
    `views.py`, which differ only in the label of the oldest decade): the weekly filter,
    the percent change between two weeks, the seven-day histogram, the decade label and
    the eight-bucket decade histogram. Dates are whole days, numbered by
    `Dates.Ordinal`. */
module Stats {
  import opened Wrappers
  import opened Dates
  import opened Models

  // ---------------------------------------------------------------------------
  // loadWeekly

  /** A relation `loadWeekly` keeps: watched, with a watched date in `[start, end)`. */
  predicate WatchedIn(mu: MovieUser, start: int, end: int) {
    && mu.watchStatus == Watched
    && mu.watchedDate.Some?
    && 1 <= mu.watchedDate.value.month <= 12
    && start <= Ordinal(mu.watchedDate.value) < end
  }

  /** `loadWeekly(user, start, end)`: the user's relations that are "Watched" with a
      watched date on a day in `[start, end)`. */
  function LoadWeekly(relations: map<RelationKey, MovieUser>, user: UserId, start: int, end: int): (keys: set<RelationKey>)
    ensures forall k :: k in keys ==> k in relations && k.0 == user && WatchedIn(relations[k], start, end)
    ensures forall k :: k in relations && k.0 == user && WatchedIn(relations[k], start, end) ==> k in keys
  {
    set k | k in relations && k.0 == user && WatchedIn(relations[k], start, end)
  }

  /** The day a midnight instant of the week window begins. */
  function WindowDay(instant: int): int {
    LocalOrdinal(instant)
  }

  /** The two weeks `stats_payload` compares are seven days each, back to back, so no
      relation is counted in both, and together they are the fortnight. */
  lemma WeeksSplitFortnight(relations: map<RelationKey, MovieUser>, user: UserId, now: int)
    ensures var w := WeekWindowSundayAnchor(now);
      && WindowDay(w.currEnd) - WindowDay(w.currStart) == 7
      && WindowDay(w.prevEnd) - WindowDay(w.prevStart) == 7
      && WindowDay(w.prevEnd) == WindowDay(w.currStart)
      && LoadWeekly(relations, user, WindowDay(w.prevStart), WindowDay(w.prevEnd))
         * LoadWeekly(relations, user, WindowDay(w.currStart), WindowDay(w.currEnd)) == {}
      && LoadWeekly(relations, user, WindowDay(w.prevStart), WindowDay(w.prevEnd))
         + LoadWeekly(relations, user, WindowDay(w.currStart), WindowDay(w.currEnd))
         == LoadWeekly(relations, user, WindowDay(w.prevStart), WindowDay(w.currEnd))
  {
    var w := WeekWindowSundayAnchor(now);
    assert w.currStart % SECONDS_PER_DAY == 0;
    var q := w.currStart / SECONDS_PER_DAY;
    assert w.currStart == q * SECONDS_PER_DAY;
    assert w.currEnd == (q + 7) * SECONDS_PER_DAY;
    assert w.prevStart == (q - 7) * SECONDS_PER_DAY;
    assert WindowDay(w.currStart) == q + 1;
    assert WindowDay(w.currEnd) == q + 8;
    assert WindowDay(w.prevStart) == q - 6;
  }

  // ---------------------------------------------------------------------------
  // calc_percentChange

  /** `calc_percentChange(old, new)`: no value when the old count is zero, otherwise the
      change relative to the old count, in percent (exact arithmetic stands for the
      floating-point division). */
  function CalcPercentChange(before: int, after: int): (r: Option<real>)
    ensures r.None? <==> before == 0
    ensures r.Some? ==> (r.value > 0.0 <==> after > before) && (r.value == 0.0 <==> after == before)
    ensures r.Some? ==> r.value * (if before < 0 then -before else before) as real == (after - before) as real * 100.0
  {
    if before == 0 then None
    else
      var magnitude := if before < 0 then -before else before;
      Some(((after - before) as real / magnitude as real) * 100.0)
  }

  // ---------------------------------------------------------------------------
  // calculatePerDay

  /** The number of entries watched on `day`. */
  function CountOn(days: seq<int>, day: int): nat {
    if days == [] then 0
    else CountOn(days[..|days| - 1], day) + (if days[|days| - 1] == day then 1 else 0)
  }

  /** The number of entries watched on a day in `[lo, hi)`. */
  function CountIn(days: seq<int>, lo: int, hi: int): nat {
    if days == [] then 0
    else CountIn(days[..|days| - 1], lo, hi) + (if lo <= days[|days| - 1] < hi then 1 else 0)
  }

  function Sum(s: seq<nat>): nat {
    if s == [] then 0 else Sum(s[..|s| - 1]) + s[|s| - 1]
  }

  /** `calculatePerDay(entries, start)`, with each entry given by the day of its watched
      date: slot `d` counts the entries watched `d` days after `start`; an entry outside
      the seven days is ignored. */
  method CalculatePerDay(days: seq<int>, start: int) returns (weekData: seq<nat>)
    ensures |weekData| == 7
    ensures forall d :: 0 <= d < 7 ==> weekData[d] == CountOn(days, start + d)
  {
    var slots := new nat[7](_ => 0);
    var i := 0;
    while i < |days|
      invariant 0 <= i <= |days|
      invariant forall d :: 0 <= d < 7 ==> slots[d] == CountOn(days[..i], start + d)
    {
      assert days[..i + 1][..i] == days[..i];
      var delta := days[i] - start;
      if 0 <= delta < 7 {
        slots[delta] := slots[delta] + 1;
      }
      i := i + 1;
    }
    assert days[..|days|] == days;
    weekData := slots[..];
  }

  /** The histogram as a value: slot `d` holds the entries of day `start + d`. */
  function PerDay(days: seq<int>, start: int): (slots: seq<nat>)
    ensures |slots| == 7
  {
    [CountOn(days, start), CountOn(days, start + 1), CountOn(days, start + 2), CountOn(days, start + 3),
     CountOn(days, start + 4), CountOn(days, start + 5), CountOn(days, start + 6)]
  }

  /** Adding one to slot `j` adds one to the sum. */
  lemma {:induction false} SumBump(s: seq<nat>, j: nat)
    requires j < |s|
    ensures Sum(s[j := s[j] + 1]) == Sum(s) + 1
    decreases |s|
  {
    var t := s[j := s[j] + 1];
    if j < |s| - 1 {
      assert t[..|t| - 1] == s[..|s| - 1][j := s[j] + 1];
      SumBump(s[..|s| - 1], j);
    } else {
      assert t[..|t| - 1] == s[..|s| - 1];
    }
  }

  lemma SumOfSeven(s: seq<nat>)
    requires |s| == 7
    ensures Sum(s) == s[0] + s[1] + s[2] + s[3] + s[4] + s[5] + s[6]
  {
    assert Sum(s[..1]) == s[0] by { assert s[..1][..0] == []; }
    assert Sum(s[..2]) == Sum(s[..1]) + s[1] by { assert s[..2][..1] == s[..1]; }
    assert Sum(s[..3]) == Sum(s[..2]) + s[2] by { assert s[..3][..2] == s[..2]; }
    assert Sum(s[..4]) == Sum(s[..3]) + s[3] by { assert s[..4][..3] == s[..3]; }
    assert Sum(s[..5]) == Sum(s[..4]) + s[4] by { assert s[..5][..4] == s[..4]; }
    assert Sum(s[..6]) == Sum(s[..5]) + s[5] by { assert s[..6][..5] == s[..5]; }
    assert s[..7] == s;
  }

  /** The seven slots together count exactly the entries of the week `[start, start + 7)`:
      none is counted twice and none in the week is lost. */
  lemma {:induction false} PerDayCountsWeek(days: seq<int>, start: int)
    ensures Sum(PerDay(days, start)) == CountIn(days, start, start + 7)
    decreases |days|
  {
    var slots := PerDay(days, start);
    if days == [] {
      SumOfSeven(slots);
    } else {
      var init := days[..|days| - 1];
      var x := days[|days| - 1];
      var before := PerDay(init, start);
      PerDayCountsWeek(init, start);
      assert forall d :: 0 <= d < 7 ==> slots[d] == before[d] + (if x == start + d then 1 else 0);
      if start <= x < start + 7 {
        assert slots == before[x - start := before[x - start] + 1];
        SumBump(before, x - start);
      } else {
        assert slots == before;
      }
    }
  }

  // ---------------------------------------------------------------------------
  // getDecadeLabel and byDecadePayload

  /** The label of every year before 1960. */
  const PRE_1960S: string := "Pre-1960s"

  /** `DECADE_ORDER`, given the label of the years before 1960. */
  function DecadeOrder(pre: string): (order: seq<string>)
    ensures |order| == 8 && order[0] == pre
  {
    [pre, "60s", "70s", "80s", "90s", "00s", "10s", "20s"]
  }

  /** The tens digit of a year: 8 for 1985, 0 for 2003. */
  function DecadeDigit(year: int): (d: int)
    ensures 0 <= d <= 9
  {
    (year / 10) % 10
  }

  /** `getDecadeLabel(year)`: the label of the years before 1960, or the decade's last two
      digits, zero-padded, and "s". */
  function DecadeLabel(pre: string, year: int): (r: string)
    ensures year < 1960 ==> r == pre
    ensures year >= 1960 ==> r == [DigitChar(DecadeDigit(year)), '0', 's']
  {
    if year < 1960 then pre
    else
      var decade := (year / 10) * 10;
      var two := decade % 100;
      TwoDigitsOfDecade(year);
      [DigitChar(two / 10), DigitChar(two % 10), 's']
  }

  lemma TwoDigitsOfDecade(year: int)
    requires year >= 0
    ensures ((year / 10) * 10) % 100 / 10 == DecadeDigit(year) && ((year / 10) * 10) % 100 % 10 == 0
  {
    var q := year / 10;
    var a := q / 10;
    var b := q % 10;
    assert q * 10 == 100 * a + 10 * b;
    assert (q * 10) % 100 == 10 * b;
    assert (10 * b) / 10 == b && (10 * b) % 10 == 0;
  }

  /** Some examples: 1985 is in the eighties, 2003 in the noughties, 1959 before 1960. */
  lemma DecadeLabelExamples()
    ensures DecadeLabel(PRE_1960S, 1985) == "80s"
    ensures DecadeLabel(PRE_1960S, 2003) == "00s"
    ensures DecadeLabel(PRE_1960S, 1959) == "Pre-1960s"
  {
    assert DecadeDigit(1985) == 8;
    assert DecadeDigit(2003) == 0;
  }

  /** The label only looks at the last two digits of the decade, so a year a century
      after 1960 or later shares its label with the year a century before. */
  lemma DecadeLabelCentury(pre: string, year: int)
    requires year >= 1960
    ensures DecadeLabel(pre, year + 100) == DecadeLabel(pre, year)
  {
    assert (year + 100) / 10 == year / 10 + 10;
  }

  /** Where a label sits in `DECADE_ORDER`: the slot of a year, or 8 when its label is not
      listed (the tens digits 3 to 5 of a year from 1960 on). */
  function DecadeSlot(year: int): (k: nat)
    ensures k <= 8
  {
    if year < 1960 then 0
    else
      var d := DecadeDigit(year);
      if d >= 6 then d - 5 else if d <= 2 then d + 5 else 8
  }

  /** A year's label is the entry of `DECADE_ORDER` at its slot, and no other entry; a
      year whose slot is 8 has a label that is not listed. The label of the years
      before 1960 must not look like a decade's. */
  lemma LabelAtSlot(pre: string, year: int, k: nat)
    requires |pre| != 3 && k < 8
    ensures DecadeOrder(pre)[k] == DecadeLabel(pre, year) <==> DecadeSlot(year) == k
  {
    var order := DecadeOrder(pre);
    if year >= 1960 {
      var d := DecadeDigit(year);
      var lab := DecadeLabel(pre, year);
      assert lab[0] == DigitChar(d);
      if k > 0 {
        assert |order[k]| == 3;
        assert order[k] == lab <==> order[k][0] == lab[0];
      }
    }
  }

  /** Every year before 2030 is counted in one of the eight buckets; the years 2030 to
      2059 are in none. */
  lemma ListedYears(year: int)
    ensures year < 2030 ==> DecadeSlot(year) < 8
    ensures 2030 <= year < 2060 ==> DecadeSlot(year) == 8
  {
  }

  /** A bucket of the decade histogram: the payload's `"label"` and `"count"` keys. */
  datatype Bucket = Bucket(lab: string, count: nat)

  /** `Counter.get(lab, 0)` */
  function CounterGet(counts: map<string, nat>, lab: string): nat {
    if lab in counts then counts[lab] else 0
  }

  /** The number of known years (`None` is skipped) whose label is `lab`. */
  function CountLabel(pre: string, years: seq<Option<int>>, lab: string): nat {
    if years == [] then 0
    else
      var y := years[|years| - 1];
      CountLabel(pre, years[..|years| - 1], lab) + (if y.Some? && DecadeLabel(pre, y.value) == lab then 1 else 0)
  }

  /** The histogram as a value: one bucket per label of the order, in that order. */
  function DecadePayload(pre: string, years: seq<Option<int>>): (p: seq<Bucket>)
    ensures |p| == 8
    ensures forall k :: 0 <= k < 8 ==> p[k].lab == DecadeOrder(pre)[k]
  {
    seq(8, k requires 0 <= k < 8 => Bucket(DecadeOrder(pre)[k], CountLabel(pre, years, DecadeOrder(pre)[k])))
  }

  /** `byDecadePayload(qs)`, with the release years of the relations: count each known
      year under its label, then read off the eight labels of the order. */
  method ByDecadePayload(pre: string, years: seq<Option<int>>) returns (payload: seq<Bucket>)
    ensures |payload| == 8
    ensures forall k :: 0 <= k < 8 ==> payload[k] == Bucket(DecadeOrder(pre)[k], CountLabel(pre, years, DecadeOrder(pre)[k]))
  {
    var counts: map<string, nat> := map[];
    var i := 0;
    while i < |years|
      invariant 0 <= i <= |years|
      invariant forall lab :: CounterGet(counts, lab) == CountLabel(pre, years[..i], lab)
    {
      assert years[..i + 1][..i] == years[..i];
      var y := years[i];
      if y.Some? {
        var lab := DecadeLabel(pre, y.value);
        counts := counts[lab := CounterGet(counts, lab) + 1];
      }
      i := i + 1;
    }
    assert years[..|years|] == years;
    var order := DecadeOrder(pre);
    payload := seq(8, k requires 0 <= k < 8 => Bucket(order[k], CounterGet(counts, order[k])));
  }

  function Total(p: seq<Bucket>): nat {
    if p == [] then 0 else Total(p[..|p| - 1]) + p[|p| - 1].count
  }

  /** The number of known years. */
  function Known(years: seq<Option<int>>): nat {
    if years == [] then 0 else Known(years[..|years| - 1]) + (if years[|years| - 1].Some? then 1 else 0)
  }

  /** The number of known years whose slot is 8 (not in any bucket). */
  function Unlisted(years: seq<Option<int>>): nat {
    if years == [] then 0
    else
      var y := years[|years| - 1];
      Unlisted(years[..|years| - 1]) + (if y.Some? && DecadeSlot(y.value) == 8 then 1 else 0)
  }

  /** The eight bucket counts of one more year: the bucket at the year's slot gains one. */
  lemma {:induction false} PayloadStep(pre: string, years: seq<Option<int>>, y: int)
    requires |pre| != 3
    ensures forall k :: 0 <= k < 8 ==>
      DecadePayload(pre, years + [Some(y)])[k].count == DecadePayload(pre, years)[k].count + (if DecadeSlot(y) == k then 1 else 0)
  {
    forall k | 0 <= k < 8
      ensures DecadePayload(pre, years + [Some(y)])[k].count == DecadePayload(pre, years)[k].count + (if DecadeSlot(y) == k then 1 else 0)
    {
      assert (years + [Some(y)])[..|years|] == years;
      LabelAtSlot(pre, y, k);
    }
  }

  lemma TotalOfEight(p: seq<Bucket>)
    requires |p| == 8
    ensures Total(p) == p[0].count + p[1].count + p[2].count + p[3].count + p[4].count + p[5].count + p[6].count + p[7].count
  {
    assert Total(p[..1]) == p[0].count by { assert p[..1][..0] == []; }
    assert Total(p[..2]) == Total(p[..1]) + p[1].count by { assert p[..2][..1] == p[..1]; }
    assert Total(p[..3]) == Total(p[..2]) + p[2].count by { assert p[..3][..2] == p[..2]; }
    assert Total(p[..4]) == Total(p[..3]) + p[3].count by { assert p[..4][..3] == p[..3]; }
    assert Total(p[..5]) == Total(p[..4]) + p[4].count by { assert p[..5][..4] == p[..4]; }
    assert Total(p[..6]) == Total(p[..5]) + p[5].count by { assert p[..6][..5] == p[..5]; }
    assert Total(p[..7]) == Total(p[..6]) + p[6].count by { assert p[..7][..6] == p[..6]; }
    assert p[..8] == p;
  }

  /** The number of known years whose slot is `k`. */
  function CountSlot(years: seq<Option<int>>, k: nat): nat {
    if years == [] then 0
    else
      var y := years[|years| - 1];
      CountSlot(years[..|years| - 1], k) + (if y.Some? && DecadeSlot(y.value) == k then 1 else 0)
  }

  /** Bucket `k` counts exactly the known years whose slot is `k`: the label of the years
      before 1960 only names the first bucket, it does not change what is counted. */
  lemma {:induction false} BucketCountsSlot(pre: string, years: seq<Option<int>>, k: nat)
    requires |pre| != 3 && k < 8
    ensures CountLabel(pre, years, DecadeOrder(pre)[k]) == CountSlot(years, k)
    decreases |years|
  {
    if years != [] {
      var y := years[|years| - 1];
      BucketCountsSlot(pre, years[..|years| - 1], k);
      if y.Some? {
        LabelAtSlot(pre, y.value, k);
      }
    }
  }

  /** Every known year is counted once, in its bucket, unless its label is not listed;
      so the buckets add up to the known years less the unlisted ones, and a list of
      years before 2030 is counted in full. */
  lemma {:induction false} DecadeTotal(pre: string, years: seq<Option<int>>)
    requires |pre| != 3
    ensures Total(DecadePayload(pre, years)) + Unlisted(years) == Known(years)
    decreases |years|
  {
    var p := DecadePayload(pre, years);
    TotalOfEight(p);
    if years == [] {
    } else {
      var init := years[..|years| - 1];
      var y := years[|years| - 1];
      DecadeTotal(pre, init);
      TotalOfEight(DecadePayload(pre, init));
      assert years == init + [y];
      if y.Some? {
        PayloadStep(pre, init, y.value);
      } else {
        forall k | 0 <= k < 8 ensures p[k].count == DecadePayload(pre, init)[k].count {
        }
      }
    }
  }

  /** When every known year is before 2030, none is unlisted. */
  lemma {:induction false} NoneUnlisted(years: seq<Option<int>>)
    requires forall i :: 0 <= i < |years| && years[i].Some? ==> years[i].value < 2030
    ensures Unlisted(years) == 0
    decreases |years|
  {
    if years != [] {
      NoneUnlisted(years[..|years| - 1]);
    }
  }
}
