/**
 * The channel table: a client-side list of creator channels whose counts
 * are display texts such as `"3.4 M"`, with a text search, sorting by join
 * date or by a count, and bulk delete and export of the selected rows.
 *
 * The row-selection model and `confirm()` are inputs; date parsing is the
 * parameter `dateOf`, an opaque integer key per date text.
 */
module Channels {
  import opened Wrappers
  import opened Text
  import opened Lists
  import opened StableSort
  import opened Paging

  datatype Channel = Channel(
    id: int, channelName: string, username: string, joinedOn: string,
    followers: string, views: string, likes: string)

  /** The regex class `[\d.]`. */
  predicate IsMantissaChar(c: char)
  {
    IsDigit(c) || c == '.'
  }

  predicate IsSuffix(s: string)
  {
    s == [] || s == "M" || s == "K" || s == "B"
  }

  /** The longest prefix made of digits and dots. */
  function MantissaPrefix(s: string): (r: string)
    ensures r <= s && forall i :: 0 <= i < |r| ==> IsMantissaChar(r[i])
    ensures |r| < |s| ==> !IsMantissaChar(s[|r|])
    decreases |s|
  {
    if s != [] && IsMantissaChar(s[0]) then [s[0]] + MantissaPrefix(s[1..]) else []
  }

  /**
   * The text matches `^([\d.]+)\s*([MKB]?)$` with `mantissa` and `suffix`
   * as its two groups.
   */
  ghost predicate MatchesShape(t: string, mantissa: string, spaces: string, suffix: string)
  {
    && t == mantissa + spaces + suffix
    && |mantissa| >= 1 && (forall i :: 0 <= i < |mantissa| ==> IsMantissaChar(mantissa[i]))
    && (forall i :: 0 <= i < |spaces| ==> IsSpace(spaces[i]))
    && IsSuffix(suffix)
  }

  /** The regex match, computed greedily: the two groups, or `None`. */
  function SplitMetric(t: string): Option<(string, string)>
  {
    var m := MantissaPrefix(t);
    var suffix := TrimStart(t[|m|..]);
    if m != [] && IsSuffix(suffix) then Some((m, suffix)) else None
  }

  /** Every match found is a match of the pattern. */
  lemma SplitMetricSound(t: string)
    requires SplitMetric(t).Some?
    ensures var (m, suffix) := SplitMetric(t).value;
      exists spaces :: MatchesShape(t, m, spaces, suffix)
  {
    var (m, suffix) := SplitMetric(t).value;
    var rest := t[|m|..];
    TrimStartSpec(rest);
    var spaces := rest[..|rest| - |suffix|];
    assert rest == spaces + suffix;
    assert t == m + rest;
    assert MatchesShape(t, m, spaces, suffix);
  }

  /** Every way the pattern matches is the one found. */
  lemma SplitMetricComplete(t: string, m: string, spaces: string, suffix: string)
    requires MatchesShape(t, m, spaces, suffix)
    ensures SplitMetric(t) == Some((m, suffix))
  {
    var rest := spaces + suffix;
    assert t == m + rest;
    assert rest == [] || !IsMantissaChar(rest[0]);
    MantissaOf(m, rest);
    assert t[|m|..] == rest;
    SpacesThen(spaces, suffix);
  }

  lemma {:induction false} MantissaOf(m: string, rest: string)
    requires forall i :: 0 <= i < |m| ==> IsMantissaChar(m[i])
    requires rest == [] || !IsMantissaChar(rest[0])
    ensures MantissaPrefix(m + rest) == m
    decreases |m|
  {
    if m != [] {
      assert (m + rest)[1..] == m[1..] + rest;
      MantissaOf(m[1..], rest);
    } else {
      assert m + rest == rest;
    }
  }

  lemma {:induction false} SpacesThen(spaces: string, suffix: string)
    requires forall i :: 0 <= i < |spaces| ==> IsSpace(spaces[i])
    requires IsSuffix(suffix)
    ensures TrimStart(spaces + suffix) == suffix
    decreases |spaces|
  {
    if spaces != [] {
      assert (spaces + suffix)[1..] == spaces[1..] + suffix;
      SpacesThen(spaces[1..], suffix);
    } else {
      assert spaces + suffix == suffix;
      assert suffix == [] || !IsSpace(suffix[0]);
    }
  }

  /**
   * `parseFloat` of a digits-and-dots text, as an exact decimal: the
   * integer digits, then an optional dot and fraction digits; `None` (NaN)
   * when there is no digit before the second dot.
   */
  function MantissaValue(m: string): Option<real>
  {
    var whole := LeadingDigits(m);
    var rest := m[|whole|..];
    var fraction := if rest != [] && rest[0] == '.' then LeadingDigits(rest[1..]) else [];
    if whole == [] && fraction == [] then None
    else Some(DigitsValue(whole) as real + DigitsValue(fraction) as real / Pow10(|fraction|) as real)
  }

  function Scale(suffix: string): real
  {
    if suffix == "B" then 1000000000.0
    else if suffix == "M" then 1000000.0
    else if suffix == "K" then 1000.0
    else 1.0
  }

  /**
   * `parseNumber`: 0 for text of another shape, `None` (NaN) for a mantissa
   * without digits, else the mantissa scaled by its suffix.
   */
  function ParseNumber(s: string): Option<real>
  {
    var parts := SplitMetric(Upper(Trim(s)));
    if parts.None? then Some(0.0) else ScaledValue(parts.value.0, parts.value.1)
  }

  /** The mantissa's value times its suffix's scale. */
  function ScaledValue(m: string, suffix: string): Option<real>
  {
    var v := MantissaValue(m);
    if v.None? then None else Some(v.value * Scale(suffix))
  }

  /** Text of another shape reads as 0. */
  lemma ParseNumberMalformed(s: string)
    requires forall m, spaces, suffix :: !MatchesShape(Upper(Trim(s)), m, spaces, suffix)
    ensures ParseNumber(s) == Some(0.0)
  {
    if SplitMetric(Upper(Trim(s))).Some? {
      SplitMetricSound(Upper(Trim(s)));
    }
  }

  /**
   * A mantissa, optional white space and a `K`, `M` or `B` in either case
   * read as the mantissa times a thousand, a million or a billion.
   */
  lemma ParseNumberScaled(m: string, spaces: string, c: char)
    requires |m| >= 1 && forall i :: 0 <= i < |m| ==> IsMantissaChar(m[i])
    requires forall i :: 0 <= i < |spaces| ==> IsSpace(spaces[i])
    requires UpperChar(c) == 'K' || UpperChar(c) == 'M' || UpperChar(c) == 'B'
    ensures MantissaValue(m).Some? ==>
      ParseNumber(m + spaces + [c]) == Some(MantissaValue(m).value * Scale([UpperChar(c)]))
    ensures MantissaValue(m).None? ==> ParseNumber(m + spaces + [c]).None?
  {
    var suffix := [UpperChar(c)];
    var u := m + spaces + suffix;
    NormalisedScaled(m, spaces, c);
    assert suffix == "K" || suffix == "M" || suffix == "B";
    SplitMetricComplete(u, m, spaces, suffix);
    ParseVia(m + spaces + [c], m, suffix);
  }

  /** `parseNumber` once the pattern has matched. */
  lemma ParseVia(s: string, m: string, suffix: string)
    requires SplitMetric(Upper(Trim(s))) == Some((m, suffix))
    ensures ParseNumber(s) == ScaledValue(m, suffix)
  {
  }

  /** Trimming and upper-casing a scaled count only upper-cases its suffix. */
  lemma NormalisedScaled(m: string, spaces: string, c: char)
    requires |m| >= 1 && forall i :: 0 <= i < |m| ==> IsMantissaChar(m[i])
    requires forall i :: 0 <= i < |spaces| ==> IsSpace(spaces[i])
    requires UpperChar(c) == 'K' || UpperChar(c) == 'M' || UpperChar(c) == 'B'
    ensures Upper(Trim(m + spaces + [c])) == m + spaces + [UpperChar(c)]
  {
    var s := m + spaces + [c];
    assert s[0] == m[0] && s[|s| - 1] == c;
    assert !IsSpace(m[0]) && !IsSpace(c);
    TrimNoop(s);
    var u := m + spaces + [UpperChar(c)];
    forall i | 0 <= i < |s| ensures UpperChar(s[i]) == u[i] {
      if i < |m| {
        assert s[i] == m[i] && u[i] == m[i];
      } else if i < |m| + |spaces| {
        assert s[i] == spaces[i - |m|] && u[i] == spaces[i - |m|];
      }
    }
    assert Upper(s) == u;
  }

  /** A bare mantissa reads as its value. */
  lemma ParseNumberPlain(m: string)
    requires |m| >= 1 && forall i :: 0 <= i < |m| ==> IsMantissaChar(m[i])
    ensures ParseNumber(m) == MantissaValue(m)
  {
    assert !IsSpace(m[0]) && !IsSpace(m[|m| - 1]);
    TrimNoop(m);
    assert Upper(m) == m;
    assert m == m + [] + [];
    SplitMetricComplete(m, m, [], []);
    ParseVia(m, m, []);
  }

  /** `"3.4 M"` reads as 3 400 000. */
  lemma ParseNumberExample()
    ensures ParseNumber("3.4 M") == Some(3400000.0)
  {
    assert "3.4" + " " + ['M'] == "3.4 M";
    MantissaExample();
    ParseNumberScaled("3.4", " ", 'M');
  }

  lemma MantissaExample()
    ensures MantissaValue("3.4") == Some(3.4)
  {
    LeadingDigitsOf("3", ".4");
    assert "3" + ".4" == "3.4";
    assert "3.4"[1..] == ".4";
    assert ".4"[1..] == "4";
    LeadingDigitsOf("4", []);
    assert "4" + [] == "4";
    assert "3"[..0] == [] && "4"[..0] == [];
  }

  /** The sort key of a count: NaN is taken as 0. */
  function Metric(s: string): real
  {
    ParseNumber(s).GetOr(0.0)
  }

  /** The search looks at the name, username, join date and the three counts. */
  predicate ChannelMatches(c: Channel, query: string)
  {
    IncludesIgnoringCase(c.channelName, query) || IncludesIgnoringCase(c.username, query) ||
    IncludesIgnoringCase(c.joinedOn, query) || IncludesIgnoringCase(c.followers, query) ||
    IncludesIgnoringCase(c.views, query) || IncludesIgnoringCase(c.likes, query)
  }

  function SearchChannels(channels: seq<Channel>, query: string): seq<Channel>
  {
    if query == "" then channels else Filter(channels, (c: Channel) => ChannelMatches(c, query))
  }

  /** A channel is kept iff it matches; the empty query keeps them all. */
  lemma SearchKeeps(channels: seq<Channel>, query: string)
    ensures var r := SearchChannels(channels, query);
      && (forall i :: 0 <= i < |channels| ==>
            (channels[i] in r <==> query == "" || ChannelMatches(channels[i], query)))
      && (forall i :: 0 <= i < |r| ==> r[i] in channels)
      && (query == "" ==> r == channels)
  {
  }

  datatype Column = Joined | Followers | Views | Likes

  function SortKey(option: string): Option<(Column, bool)>
  {
    if option == "newold" then Some((Joined, true))
    else if option == "oldnew" then Some((Joined, false))
    else if option == "FHL" then Some((Followers, true))
    else if option == "FLH" then Some((Followers, false))
    else if option == "VHL" then Some((Views, true))
    else if option == "VLH" then Some((Views, false))
    else if option == "LHL" then Some((Likes, true))
    else if option == "LLH" then Some((Likes, false))
    else None
  }

  function KeyOf(col: Column, dateOf: string -> int): Channel -> real
  {
    match col
    case Joined => (c: Channel) => dateOf(c.joinedOn) as real
    case Followers => (c: Channel) => Metric(c.followers)
    case Views => (c: Channel) => Metric(c.views)
    case Likes => (c: Channel) => Metric(c.likes)
  }

  /** `filteredData`: the search, then the chosen sort. */
  function VisibleChannels(channels: seq<Channel>, query: string, option: string,
                           dateOf: string -> int): seq<Channel>
  {
    var found := SearchChannels(channels, query);
    match SortKey(option)
    case Some((col, desc)) => SortBy(found, KeyOf(col, dateOf), desc)
    case None => found
  }

  /** The rows are a stable, ordered permutation of the search result. */
  lemma VisibleChannelsSorted(channels: seq<Channel>, query: string, option: string,
                              dateOf: string -> int)
    ensures var found := SearchChannels(channels, query);
      var r := VisibleChannels(channels, query, option, dateOf);
      && multiset(r) == multiset(found)
      && (SortKey(option).None? ==> r == found)
      && (SortKey(option).Some? ==>
            var (col, desc) := SortKey(option).value;
            Ordered(r, KeyOf(col, dateOf), desc) &&
            forall x :: WithKey(r, KeyOf(col, dateOf), x) == WithKey(found, KeyOf(col, dateOf), x))
  {
    var found := SearchChannels(channels, query);
    if SortKey(option).Some? {
      var (col, desc) := SortKey(option).value;
      SortByPermutes(found, KeyOf(col, dateOf), desc);
      SortByOrdered(found, KeyOf(col, dateOf), desc);
      forall x { SortByStable(found, KeyOf(col, dateOf), desc, x); }
    }
  }

  predicate IdSelected(selected: seq<Channel>, c: Channel)
  {
    exists i :: 0 <= i < |selected| && selected[i].id == c.id
  }

  function DeleteSelected(channels: seq<Channel>, selected: seq<Channel>): seq<Channel>
  {
    Filter(channels, (c: Channel) => !IdSelected(selected, c))
  }

  /** A delete drops exactly the channels whose id is selected and keeps the rest in order. */
  lemma DeleteSelectedExact(channels: seq<Channel>, selected: seq<Channel>,
                            before: seq<Channel>, after: seq<Channel>)
    requires channels == before + after
    ensures forall i :: 0 <= i < |channels| ==>
      (channels[i] in DeleteSelected(channels, selected) <==> !IdSelected(selected, channels[i]))
    ensures DeleteSelected(channels, selected) ==
      DeleteSelected(before, selected) + DeleteSelected(after, selected)
  {
    FilterConcat(before, after, (c: Channel) => !IdSelected(selected, c));
  }

  /** Deleting channels none of which is listed keeps the list as it is. */
  lemma DeleteUnlisted(channels: seq<Channel>, selected: seq<Channel>)
    requires forall i, j :: 0 <= i < |channels| && 0 <= j < |selected| ==> channels[i].id != selected[j].id
    ensures DeleteSelected(channels, selected) == channels
  {
    FilterKeepsAll(channels, (c: Channel) => !IdSelected(selected, c));
  }

  /** The state of the channel page. */
  class ChannelsPage {
    var channels: seq<Channel>
    var pageSize: nat
    var pageIndex: nat
    var globalFilter: string
    var sortOption: string
    var rowSelection: set<nat>
    var actionValue: string

    ghost predicate Valid()
      reads this
    {
      pageSize > 0
    }

    constructor (initial: seq<Channel>)
      ensures Valid()
      ensures channels == initial && pageSize == 5 && pageIndex == 0
      ensures globalFilter == "" && sortOption == "newold"
      ensures rowSelection == {} && actionValue == ""
    {
      channels, pageSize, pageIndex := initial, 5, 0;
      globalFilter, sortOption := "", "newold";
      rowSelection, actionValue := {}, "";
    }

    /**
     * `handleAction` for the channels of the selected rows: nothing happens
     * without a selection; a confirmed delete removes them and `export`
     * keeps them, both clearing the selection; the action menu always resets.
     */
    method HandleAction(action: string, selected: seq<Channel>, confirmed: bool)
      modifies this`channels, this`rowSelection, this`actionValue
      ensures actionValue == ""
      ensures selected == [] || action == "export" || !(action == "delete" && confirmed) ==>
        channels == old(channels)
      ensures selected == [] ==> rowSelection == old(rowSelection)
      ensures selected != [] ==>
        && (action == "delete" && confirmed ==> channels == DeleteSelected(old(channels), selected))
        && rowSelection == (if (action == "delete" && confirmed) || action == "export"
                            then {} else old(rowSelection))
    {
      if selected == [] {
        actionValue := "";
        return;
      }
      if action == "delete" {
        if confirmed {
          channels := DeleteSelected(channels, selected);
          rowSelection := {};
        }
      } else if action == "export" {
        rowSelection := {};
      }
      actionValue := "";
    }

    /** `filteredData`: searches, copies, and sorts the copy in place. */
    method FilteredData(dateOf: string -> int) returns (rows: seq<Channel>)
      ensures rows == VisibleChannels(channels, globalFilter, sortOption, dateOf)
    {
      var found := SearchChannels(channels, globalFilter);
      var copy := new Channel[|found|](i requires 0 <= i < |found| => found[i]);
      assert copy[..] == found;
      var key := SortKey(sortOption);
      if key.Some? {
        SortInPlace(copy, KeyOf(key.value.0, dateOf), key.value.1);
      }
      rows := copy[..];
    }

    /** The page-button row for `ceil(filtered length / pageSize)` pages. */
    method PageItems(dateOf: string -> int) returns (items: seq<Item>)
      requires Valid()
      ensures items == PageWindow(
        CeilDiv(|VisibleChannels(channels, globalFilter, sortOption, dateOf)|, pageSize),
        pageIndex + 1)
    {
      var rows := FilteredData(dateOf);
      items := BuildPageWindow(CeilDiv(|rows|, pageSize), pageIndex + 1);
    }
  }
}
