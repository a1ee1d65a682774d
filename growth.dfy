/**
 * The growth overview of the dashboard: monthly `YYYY-MM`/count records are
 * bucketed into a fixed twelve-month chart, the headline totals are kept
 * from the last successful response, and each total shows a growth mark.
 */
module Growth {
  import opened Wrappers
  import opened Text

  const Months: seq<string> :=
    ["Jan", "Feb", "Mar", "Apr", "May", "Jun", "Jul", "Aug", "Sep", "Oct", "Nov", "Dec"]

  /** One record of a monthly series; `id` is `YYYY-MM`. */
  datatype MonthlyStat = MonthlyStat(id: string, count: int)

  datatype ChartItem = ChartItem(month: string, newCreator: int, liveStreams: int)

  datatype Stats = Stats(totalCreators: int, totalLiveStreamers: int,
                         newCreatorsLastMonth: int, liveStreamsLastMonth: int)

  datatype GrowthData = GrowthData(stats: Stats, monthlyCreators: seq<MonthlyStat>, liveStreams: seq<MonthlyStat>)

  datatype GrowthResponse = GrowthResponse(success: bool, data: GrowthData)

  /** The text up to the first `-`, or to the end. */
  function BeforeDash(s: string): string
  {
    if s == [] || s[0] == '-' then [] else [s[0]] + BeforeDash(s[1..])
  }

  /** The first piece is a dash-free prefix, ended by a dash or by the end of the text. */
  lemma {:induction false} BeforeDashSpec(s: string)
    ensures var r := BeforeDash(s);
      r <= s && '-' !in r && (|r| < |s| ==> s[|r|] == '-')
    decreases |s|
  {
    if s != [] && s[0] != '-' {
      BeforeDashSpec(s[1..]);
    }
  }

  /** `const [, month] = id.split("-")`: the second piece, `None` when there is no `-`. */
  function MonthPart(id: string): Option<string>
  {
    if id == [] then None
    else if id[0] == '-' then Some(BeforeDash(id[1..]))
    else MonthPart(id[1..])
  }

  /** There is a second piece iff the id has a dash. */
  lemma {:induction false} MonthPartSome(id: string)
    ensures MonthPart(id).Some? <==> '-' in id
    decreases |id|
  {
    if id != [] && id[0] != '-' {
      MonthPartSome(id[1..]);
      assert '-' in id <==> '-' in id[1..];
    }
  }

  /** The second piece is the text between the first and the second dash, whatever the year. */
  lemma {:induction false} MonthPartOf(year: string, month: string, rest: string)
    requires '-' !in year && '-' !in month
    requires rest == [] || rest[0] == '-'
    ensures MonthPart(year + "-" + month + rest) == Some(month)
    decreases |year|
  {
    if year == [] {
      assert (year + "-" + month + rest)[1..] == month + rest;
      BeforeDashOf(month, rest);
    } else {
      assert (year + "-" + month + rest)[1..] == year[1..] + "-" + month + rest;
      MonthPartOf(year[1..], month, rest);
    }
  }

  lemma {:induction false} BeforeDashOf(s: string, rest: string)
    requires '-' !in s && (rest == [] || rest[0] == '-')
    ensures BeforeDash(s + rest) == s
    decreases |s|
  {
    if s == [] {
      assert s + rest == rest;
    } else {
      assert (s + rest)[1..] == s[1..] + rest;
      BeforeDashOf(s[1..], rest);
    }
  }

  predicate AllZeros(s: string)
  {
    forall i :: 0 <= i < |s| ==> s[i] == '0'
  }

  /**
   * `Number(text)` where it is an integer: white space trimmed, the empty
   * text is 0, then an optional sign, digits, and an optional fraction.
   * `None` stands for NaN and for a value with a non-zero fraction, neither
   * of which can name a month.
   */
  function IntegerValue(text: string): Option<int>
  {
    var t := Trim(text);
    if t == [] then Some(0) else SignedValue(t)
  }

  /** A trimmed, non-empty numeral: an optional sign in front of an unsigned one. */
  function SignedValue(t: string): Option<int>
    requires t != []
  {
    var body := if t[0] == '-' || t[0] == '+' then t[1..] else t;
    var v := UnsignedValue(body);
    if t[0] == '-' && v.Some? then Some(-v.value) else v
  }

  /** Digits, then optionally a point and digits that are all zero (at least one digit in all). */
  function UnsignedValue(body: string): Option<int>
  {
    var whole := LeadingDigits(body);
    var after := body[|whole|..];
    var v: int := if whole == [] then 0 else DigitsValue(whole);
    if after == [] then
      if whole == [] then None else Some(v)
    else if after[0] == '.' && AllDigits(after[1..]) && (whole != [] || after[1..] != []) then
      if AllZeros(after[1..]) then Some(v) else None
    else None
  }

  /** A run of digits reads as its value. */
  lemma IntegerValueDigits(d: string)
    requires |d| >= 1 && AllDigits(d)
    ensures IntegerValue(d) == Some(DigitsValue(d))
  {
    assert !IsSpace(d[0]) && !IsSpace(d[|d| - 1]);
    TrimNoop(d);
    UnsignedDigits(d);
    assert SignedValue(d) == UnsignedValue(d);
  }

  lemma UnsignedDigits(d: string)
    requires |d| >= 1 && AllDigits(d)
    ensures UnsignedValue(d) == Some(DigitsValue(d))
  {
    LeadingDigitsOf(d, []);
    assert d + [] == d;
    assert d[|d|..] == [];
  }

  /** `Number(month) - 1`: the slot a record writes, when it is an integer. */
  function SlotKey(id: string): Option<int>
  {
    MonthSlot(MonthPart(id))
  }

  /** The slot a month part names, if it is an integer. */
  function MonthSlot(month: Option<string>): Option<int>
  {
    if month.None? then None
    else
      var n := IntegerValue(month.value);
      if n.None? then None else Some(n.value - 1)
  }

  /** `YYYY-MM`, with any digits as the month, writes the month's slot, whatever the year. */
  lemma SlotOfMonth(year: string, month: string)
    requires '-' !in year && |month| >= 1 && AllDigits(month)
    ensures SlotKey(year + "-" + month) == Some(DigitsValue(month) - 1)
  {
    NoDashInDigits(month);
    MonthOfId(year, month);
    SlotOfDigits(year + "-" + month, month);
  }

  /** A record whose month part is a run of digits writes that month's slot. */
  lemma SlotOfDigits(id: string, month: string)
    requires MonthPart(id) == Some(month) && |month| >= 1 && AllDigits(month)
    ensures SlotKey(id) == Some(DigitsValue(month) - 1)
  {
    IntegerValueDigits(month);
    SlotKeyVia(id, month);
  }

  lemma NoDashInDigits(d: string)
    requires AllDigits(d)
    ensures '-' !in d
  {
    assert forall i :: 0 <= i < |d| ==> d[i] != '-';
  }

  lemma MonthOfId(year: string, month: string)
    requires '-' !in year && '-' !in month
    ensures MonthPart(year + "-" + month) == Some(month)
  {
    MonthPartOf(year, month, []);
    assert year + "-" + month + [] == year + "-" + month;
  }

  lemma SlotKeyVia(id: string, month: string)
    requires MonthPart(id) == Some(month) && IntegerValue(month).Some?
    ensures SlotKey(id) == Some(IntegerValue(month).value - 1)
  {
    assert SlotKey(id) == MonthSlot(Some(month));
  }

  /** `"2025-03"` writes slot 2, March. */
  lemma SlotExample()
    ensures SlotKey("2025-03") == Some(2)
  {
    assert MonthPart("2025-03") == Some("03") by {
      NoDashInDigits("2025");
      NoDashInDigits("03");
      MonthOfId("2025", "03");
      assert "2025" + "-" + "03" == "2025-03";
    }
    assert DigitsValue("03") == 3 by {
      assert "03"[..1] == "0";
      assert "0"[..0] == [];
    }
    SlotOfDigits("2025-03", "03");
  }

  /** The count the last record writing `key` (by `slotOf`) leaves there, if any. */
  function LastFor(records: seq<MonthlyStat>, slotOf: string -> Option<int>, key: int): Option<int>
  {
    if records == [] then None
    else if slotOf(records[|records| - 1].id) == Some(key) then Some(records[|records| - 1].count)
    else LastFor(records[..|records| - 1], slotOf, key)
  }

  /**
   * `LastFor` is the count of the last record for the key: there is such a
   * record at `j` and none after it; `None` when no record has the key.
   */
  lemma {:induction false} LastForIff(records: seq<MonthlyStat>, slotOf: string -> Option<int>, key: int)
    ensures LastFor(records, slotOf, key).None? <==>
      forall j :: 0 <= j < |records| ==> slotOf(records[j].id) != Some(key)
    ensures LastFor(records, slotOf, key).Some? ==>
      exists j :: 0 <= j < |records| && slotOf(records[j].id) == Some(key) &&
        records[j].count == LastFor(records, slotOf, key).value &&
        forall k :: j < k < |records| ==> slotOf(records[k].id) != Some(key)
    decreases |records|
  {
    if records != [] {
      var n := |records| - 1;
      var init := records[..n];
      LastForIff(init, slotOf, key);
      if slotOf(records[n].id) == Some(key) {
        assert slotOf(records[n].id) == Some(key) && records[n].count == LastFor(records, slotOf, key).value;
      } else if LastFor(init, slotOf, key).Some? {
        var j :| 0 <= j < |init| && slotOf(init[j].id) == Some(key) &&
          init[j].count == LastFor(init, slotOf, key).value &&
          forall k :: j < k < |init| ==> slotOf(init[k].id) != Some(key);
        assert records[j] == init[j];
        assert forall k :: j < k < |records| ==> slotOf(records[k].id) != Some(key) by {
          forall k | j < k < |records| ensures slotOf(records[k].id) != Some(key) {
            if k < n { assert records[k] == init[k]; }
          }
        }
      } else {
        assert forall j :: 0 <= j < n ==> records[j] == init[j];
      }
    }
  }

  /** A record that writes no slot `key` can be dropped without changing `LastFor`. */
  lemma {:induction false} LastForSkip(a: seq<MonthlyStat>, r: MonthlyStat, b: seq<MonthlyStat>, slotOf: string -> Option<int>, key: int)
    requires slotOf(r.id) != Some(key)
    ensures LastFor(a + [r] + b, slotOf, key) == LastFor(a + b, slotOf, key)
    decreases |b|
  {
    if b == [] {
      assert (a + [r] + b)[..|a|] == a;
      assert a + b == a;
    } else {
      var n := |b| - 1;
      assert (a + [r] + b)[..|a| + |b|] == a + [r] + b[..n];
      assert (a + b)[..|a| + n] == a + b[..n];
      LastForSkip(a, r, b[..n], slotOf, key);
    }
  }

  /** The chart `buildMonthlyData` returns: twelve months, 0 where no record wrote. */
  function MonthlyData(creators: seq<MonthlyStat>, streams: seq<MonthlyStat>): (r: seq<ChartItem>)
    ensures |r| == 12
  {
    seq(12, i requires 0 <= i < 12 =>
      ChartItem(Months[i], LastFor(creators, SlotKey, i).GetOr(0), LastFor(streams, SlotKey, i).GetOr(0)))
  }

  /**
   * Month `i` (from 0) shows the count of the last record whose month part
   * is `i + 1`, and 0 when there is none.
   */
  lemma MonthlyDataSlots(creators: seq<MonthlyStat>, streams: seq<MonthlyStat>, i: nat)
    requires i < 12
    ensures var r := MonthlyData(creators, streams);
      && r[i].month == Months[i]
      && ((forall j :: 0 <= j < |creators| ==> SlotKey(creators[j].id) != Some(i)) ==> r[i].newCreator == 0)
      && (forall j :: (0 <= j < |creators| && SlotKey(creators[j].id) == Some(i) &&
                        (forall k :: j < k < |creators| ==> SlotKey(creators[k].id) != Some(i))) ==>
            r[i].newCreator == creators[j].count)
      && ((forall j :: 0 <= j < |streams| ==> SlotKey(streams[j].id) != Some(i)) ==> r[i].liveStreams == 0)
      && (forall j :: (0 <= j < |streams| && SlotKey(streams[j].id) == Some(i) &&
                        (forall k :: j < k < |streams| ==> SlotKey(streams[k].id) != Some(i))) ==>
            r[i].liveStreams == streams[j].count)
  {
    LastForIff(creators, SlotKey, i);
    LastForIff(streams, SlotKey, i);
  }

  /** A record whose month is not 1 to 12 changes no month of the chart. */
  lemma StrayRecord(a: seq<MonthlyStat>, r: MonthlyStat, b: seq<MonthlyStat>, streams: seq<MonthlyStat>)
    requires SlotKey(r.id).None? || SlotKey(r.id).value < 0 || SlotKey(r.id).value >= 12
    ensures MonthlyData(a + [r] + b, streams) == MonthlyData(a + b, streams)
    ensures MonthlyData(streams, a + [r] + b) == MonthlyData(streams, a + b)
  {
    forall i | 0 <= i < 12 ensures LastFor(a + [r] + b, SlotKey, i) == LastFor(a + b, SlotKey, i) {
      LastForSkip(a, r, b, SlotKey, i);
    }
  }

  /** The creator series depends on the creator records only, and the stream series on the streams only. */
  lemma SeriesIndependent(c1: seq<MonthlyStat>, c2: seq<MonthlyStat>, s1: seq<MonthlyStat>, s2: seq<MonthlyStat>, i: nat)
    requires i < 12
    ensures MonthlyData(c1, s1)[i].newCreator == MonthlyData(c1, s2)[i].newCreator
    ensures MonthlyData(c1, s1)[i].liveStreams == MonthlyData(c2, s1)[i].liveStreams
  {
  }

  /** Taking one more record into account: it wins its own slot and leaves the others alone. */
  lemma LastForStep(records: seq<MonthlyStat>, j: nat, slotOf: string -> Option<int>)
    requires j < |records|
    ensures forall k ::
              LastFor(records[..j + 1], slotOf, k) ==
              if slotOf(records[j].id) == Some(k) then Some(records[j].count) else LastFor(records[..j], slotOf, k)
  {
    assert records[..j + 1][..j] == records[..j];
  }

  /** One `forEach` pass: the map from each written key to the last count written there. */
  method FillMap(records: seq<MonthlyStat>) returns (m: map<int, int>)
    ensures forall k :: k in m <==> LastFor(records, SlotKey, k).Some?
    ensures forall k :: k in m ==> m[k] == LastFor(records, SlotKey, k).value
  {
    m := map[];
    var j := 0;
    while j < |records|
      invariant 0 <= j <= |records|
      invariant forall k :: k in m <==> LastFor(records[..j], SlotKey, k).Some?
      invariant forall k :: k in m ==> m[k] == LastFor(records[..j], SlotKey, k).value
    {
      // a NaN or fractional key is stored under a property no month reads
      var key := SlotKey(records[j].id);
      if key.Some? {
        m := m[key.value := records[j].count];
      }
      LastForStep(records, j, SlotKey);
      j := j + 1;
    }
    assert records[..|records|] == records;
  }

  /** `buildMonthlyData`: fills both maps, then reads the twelve months out of them. */
  method BuildMonthlyData(creators: seq<MonthlyStat>, streams: seq<MonthlyStat>) returns (chart: seq<ChartItem>)
    ensures chart == MonthlyData(creators, streams)
  {
    var creatorMap := FillMap(creators);
    var streamMap := FillMap(streams);
    chart := seq(12, i requires 0 <= i < 12 =>
      ChartItem(Months[i],
                if i in creatorMap then creatorMap[i] else 0,
                if i in streamMap then streamMap[i] else 0));
  }

  datatype Trend = Up(delta: int) | NoGrowth

  /** `StatBlock`: an upward mark with the delta when it is positive, "No growth" otherwise. */
  function TrendOf(delta: int): Trend
  {
    if delta > 0 then Up(delta) else NoGrowth
  }

  /** One stat block as drawn: its label (`name`), its total and its trend. */
  datatype StatBlock = StatBlock(name: string, total: int, trend: Trend)

  /** The two stat blocks under the chart, drawn from the stored stats. */
  function StatBlocks(stats: Stats): seq<StatBlock>
  {
    [StatBlock("New Creators", stats.totalCreators, TrendOf(stats.newCreatorsLastMonth)),
     StatBlock("Live Streams", stats.totalLiveStreamers, TrendOf(stats.liveStreamsLastMonth))]
  }

  /**
   * The creator block shows growth iff last month's new creators are
   * positive, and the stream block iff last month's streams are; the growth
   * shown is that count. A zero or negative count shows "No growth".
   */
  lemma StatBlocksTrend(stats: Stats)
    ensures var b := StatBlocks(stats);
      && |b| == 2
      && b[0].total == stats.totalCreators && b[1].total == stats.totalLiveStreamers
      && (b[0].trend.Up? <==> stats.newCreatorsLastMonth > 0)
      && (b[1].trend.Up? <==> stats.liveStreamsLastMonth > 0)
      && (b[0].trend.Up? ==> b[0].trend.delta == stats.newCreatorsLastMonth)
      && (b[1].trend.Up? ==> b[1].trend.delta == stats.liveStreamsLastMonth)
  {
  }

  /** Before any fetch succeeds, both blocks show "No growth". */
  lemma InitialNoGrowth()
    ensures forall b :: b in StatBlocks(Stats(0, 0, 0, 0)) ==> b.trend == NoGrowth
  {
  }

  /** The growth overview's state. */
  class GrowthOverview {
    var chartData: seq<ChartItem>
    var stats: Stats

    constructor ()
      ensures chartData == [] && stats == Stats(0, 0, 0, 0)
    {
      chartData, stats := [], Stats(0, 0, 0, 0);
    }

    /**
     * `fetchGrowth` with the backend's answer (`None` when the request
     * throws): a failed or thrown request keeps the state; a successful one
     * stores the totals and the rebuilt chart.
     */
    method FetchGrowth(result: Option<GrowthResponse>)
      modifies this
      ensures result.None? || !result.value.success ==>
        chartData == old(chartData) && stats == old(stats)
      ensures result.Some? && result.value.success ==>
        stats == result.value.data.stats &&
        chartData == MonthlyData(result.value.data.monthlyCreators, result.value.data.liveStreams)
    {
      if result.None? || !result.value.success {
        return;
      }
      var data := result.value.data;
      stats := data.stats;
      chartData := BuildMonthlyData(data.monthlyCreators, data.liveStreams);
    }
  }
}
