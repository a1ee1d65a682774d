/**
 * The content table: a client-side list of videos with a visibility filter,
 * a text search, sorting by date, views or likes, and bulk delete and
 * visibility changes on the selected rows.
 *
 * The row-selection model and `confirm()` of the framework are inputs: the
 * videos behind the selected rows and whether the user confirmed. Date
 * parsing is the parameter `dateOf`, an opaque integer key per date text.
 */
module Content {
  import opened Wrappers
  import opened Text
  import opened Lists
  import opened StableSort
  import opened Paging

  datatype Visibility = Public | Private

  datatype Video = Video(
    id: int, title: string, userName: string, visibility: Visibility,
    streamedOn: string, views: string, likes: string)

  function VisibilityText(v: Visibility): string
  {
    match v
    case Public => "Public"
    case Private => "Private"
  }

  /** `value.replace(/,/g, '')`. */
  function RemoveCommas(s: string): (r: string)
    ensures |r| <= |s|
    ensures forall i :: 0 <= i < |r| ==> r[i] != ',' && r[i] in s
  {
    if s == [] then [] else (if s[0] == ',' then [] else [s[0]]) + RemoveCommas(s[1..])
  }

  /** Removing commas is filtering them out: every other character is kept, in order. */
  lemma {:induction false} RemoveCommasFilters(s: string)
    ensures RemoveCommas(s) == Filter(s, (c: char) => c != ',')
    decreases |s|
  {
    if s != [] {
      RemoveCommasFilters(s[1..]);
    }
  }

  /**
   * `parseInt(s, 10)`: leading white space, an optional sign, then the
   * longest run of digits; no digits is NaN (`0`).
   */
  function ParseIntDecimal(s: string): (r: int)
    ensures r != 0 ==> exists i :: 0 <= i < |s| && IsDigit(s[i])
  {
    var t := TrimStart(s);
    var negative := t != [] && t[0] == '-';
    var body := if t != [] && (t[0] == '-' || t[0] == '+') then t[1..] else t;
    var digits := LeadingDigits(body);
    var v := if digits == [] then 0 else DigitsValue(digits);
    TrimStartSpec(s);
    assert v != 0 ==> digits != [] && IsDigit(s[|s| - |t| + (|t| - |body|)]);
    if negative then -v else v
  }

  /** `parseNumber`: the integer that leads the text once commas are removed, else 0. */
  function ParseNumber(s: string): int
  {
    ParseIntDecimal(RemoveCommas(s))
  }

  /** Text that starts with digits reads as those digits. */
  lemma ParseIntLeading(d: string, rest: string)
    requires AllDigits(d) && d != []
    requires rest == [] || !IsDigit(rest[0])
    ensures ParseIntDecimal(d + rest) == DigitsValue(d)
  {
    var s := d + rest;
    assert s[0] == d[0] && !IsSpace(s[0]);
    assert TrimStart(s) == s;
    LeadingDigitsOf(d, rest);
  }

  /**
   * White space, an optional sign, a run of digits and then anything but a
   * digit read as the signed value of the digits; with no digits the text
   * reads as NaN, that is 0.
   */
  lemma ParseIntSigned(ws: string, sign: string, d: string, rest: string)
    requires forall i :: 0 <= i < |ws| ==> IsSpace(ws[i])
    requires sign == "" || sign == "-" || sign == "+"
    requires AllDigits(d)
    requires rest == [] || !IsDigit(rest[0])
    requires d == [] && sign == "" ==> rest == [] || !(IsSpace(rest[0]) || rest[0] == '-' || rest[0] == '+')
    ensures ParseIntDecimal(ws + sign + d + rest) ==
      if d == [] then 0 else if sign == "-" then -(DigitsValue(d) as int) else DigitsValue(d)
  {
    var x := sign + d + rest;
    assert ws + sign + d + rest == ws + x;
    assert x == [] || !IsSpace(x[0]);
    TrimStartOf(ws, x);
    // after the sign, whatever it is, come the digits and then the rest
    var signed := x != [] && (x[0] == '-' || x[0] == '+');
    assert signed <==> sign != "";
    assert (if signed then x[1..] else x) == d + rest;
    LeadingDigitsOf(d, rest);
  }

  /** Text without commas is left as it is. */
  lemma {:induction false} NoCommas(s: string)
    requires forall i :: 0 <= i < |s| ==> s[i] != ','
    ensures RemoveCommas(s) == s
  {
    if s != [] {
      NoCommas(s[1..]);
    }
  }

  /** A plain decimal rendering reads back as the number. */
  lemma ParseNumberDecimal(n: nat)
    ensures ParseNumber(Decimal(n)) == n
  {
    var d := Decimal(n);
    NoCommas(d);
    ParseIntLeading(d, []);
    assert d + [] == d;
    DecimalRoundTrip(n);
  }

  /** Grouping commas are ignored: `"1,234"` reads as 1234. */
  lemma ParseNumberGrouped()
    ensures ParseNumber("1,234") == 1234
  {
    DropGroupComma();
    ReadDigits();
  }

  lemma ReadDigits()
    ensures ParseIntDecimal("1234") == 1234
  {
    ParseIntLeading("1234", []);
    assert "1234" + [] == "1234";
    Value1234();
  }

  lemma Value1234()
    ensures DigitsValue("1234") == 1234
  {
    assert "1234"[..3] == "123";
    assert "123"[..2] == "12";
    assert "12"[..1] == "1";
    assert "1"[..0] == "";
  }

  lemma DropGroupComma()
    ensures RemoveCommas("1,234") == "1234"
  {
    DropComma("1", "234");
    assert "1" + "," + "234" == "1,234";
    assert "1" + "234" == "1234";
  }

  /** One comma between two comma-free texts is removed and nothing else. */
  lemma {:induction false} DropComma(a: string, b: string)
    requires forall i :: 0 <= i < |a| ==> a[i] != ','
    requires forall i :: 0 <= i < |b| ==> b[i] != ','
    ensures RemoveCommas(a + "," + b) == a + b
    decreases |a|
  {
    if a == [] {
      assert a + "," + b == [','] + b;
      assert ([','] + b)[1..] == b;
      NoCommas(b);
      assert a + b == b;
    } else {
      var s := a + "," + b;
      assert s[0] == a[0] && s[1..] == a[1..] + "," + b;
      DropComma(a[1..], b);
      assert RemoveCommas(s) == [a[0]] + RemoveCommas(s[1..]);
      assert a + b == [a[0]] + (a[1..] + b);
    }
  }

  /** The number stops at the first non-digit: `"3.4M"` reads as 3. */
  lemma ParseNumberStops()
    ensures ParseNumber("3.4M") == 3
  {
    NoCommas("3.4M");
    ReadThree();
  }

  lemma ReadThree()
    ensures ParseIntDecimal("3.4M") == 3
  {
    ParseIntLeading("3", ".4M");
    assert "3" + ".4M" == "3.4M";
    assert DigitsValue("3") == 3 by {
      assert "3"[..0] == [];
    }
  }

  /** Text without digits reads as 0. */
  lemma ParseNumberNoDigits(s: string)
    requires forall i :: 0 <= i < |s| ==> !IsDigit(s[i])
    ensures ParseNumber(s) == 0
  {
  }

  /** `visibilityFilter`: `"all"` keeps every video, any other value compares case-insensitively. */
  function FilterVisibility(videos: seq<Video>, filter: string): seq<Video>
  {
    if filter == "all" then videos
    else Filter(videos, (v: Video) => Lower(VisibilityText(v.visibility)) == Lower(filter))
  }

  /** The search looks at title, visibility, date, views and likes, never at the user name. */
  predicate VideoMatches(v: Video, query: string)
  {
    IncludesIgnoringCase(v.title, query) || IncludesIgnoringCase(VisibilityText(v.visibility), query) ||
    IncludesIgnoringCase(v.streamedOn, query) || IncludesIgnoringCase(v.views, query) ||
    IncludesIgnoringCase(v.likes, query)
  }

  function SearchVideos(videos: seq<Video>, query: string): seq<Video>
  {
    if query == "" then videos else Filter(videos, (v: Video) => VideoMatches(v, query))
  }

  /** The two filters keep exactly the videos that pass both, in order. */
  lemma FiltersKeep(videos: seq<Video>, filter: string, query: string)
    ensures var r := SearchVideos(FilterVisibility(videos, filter), query);
      && (forall i :: 0 <= i < |videos| ==>
            (videos[i] in r <==>
               (filter == "all" || Lower(VisibilityText(videos[i].visibility)) == Lower(filter)) &&
               (query == "" || VideoMatches(videos[i], query))))
      && (forall i :: 0 <= i < |r| ==> r[i] in videos)
      && (filter == "all" && query == "" ==> r == videos)
  {
    var f := FilterVisibility(videos, filter);
    forall i | 0 <= i < |videos|
      ensures videos[i] in SearchVideos(f, query) <==>
                (filter == "all" || Lower(VisibilityText(videos[i].visibility)) == Lower(filter)) &&
                (query == "" || VideoMatches(videos[i], query))
    {
      if videos[i] in f {
        var k :| 0 <= k < |f| && f[k] == videos[i];
      }
    }
  }

  /** The user name takes no part in the search. */
  lemma SearchIgnoresUserName(v: Video, name: string, query: string)
    ensures VideoMatches(v.(userName := name), query) == VideoMatches(v, query)
  {
  }

  /** Visibility filtering is case-insensitive in the filter value. */
  lemma FilterVisibilityCase(videos: seq<Video>, filter: string)
    requires filter != "all" && Lower(filter) != "all"
    ensures FilterVisibility(videos, Lower(filter)) == FilterVisibility(videos, filter)
  {
    LowerIdempotent(filter);
  }

  datatype Column = Date | Views | Likes

  function SortKey(option: string): Option<(Column, bool)>
  {
    if option == "newold" then Some((Date, true))
    else if option == "oldnew" then Some((Date, false))
    else if option == "VHL" then Some((Views, true))
    else if option == "VLH" then Some((Views, false))
    else if option == "LHL" then Some((Likes, true))
    else if option == "LLH" then Some((Likes, false))
    else None
  }

  function KeyOf(col: Column, dateOf: string -> int): Video -> real
  {
    match col
    case Date => (v: Video) => dateOf(v.streamedOn) as real
    case Views => (v: Video) => ParseNumber(v.views) as real
    case Likes => (v: Video) => ParseNumber(v.likes) as real
  }

  /** `filteredData`: both filters, then the chosen sort. */
  function VisibleVideos(videos: seq<Video>, filter: string, query: string, option: string,
                         dateOf: string -> int): seq<Video>
  {
    var found := SearchVideos(FilterVisibility(videos, filter), query);
    match SortKey(option)
    case Some((col, desc)) => SortBy(found, KeyOf(col, dateOf), desc)
    case None => found
  }

  /** The rows are a stable, ordered permutation of the filtered videos. */
  lemma VisibleVideosSorted(videos: seq<Video>, filter: string, query: string, option: string,
                            dateOf: string -> int)
    ensures var found := SearchVideos(FilterVisibility(videos, filter), query);
      var r := VisibleVideos(videos, filter, query, option, dateOf);
      && multiset(r) == multiset(found)
      && (SortKey(option).None? ==> r == found)
      && (SortKey(option).Some? ==>
            var (col, desc) := SortKey(option).value;
            Ordered(r, KeyOf(col, dateOf), desc) &&
            forall x :: WithKey(r, KeyOf(col, dateOf), x) == WithKey(found, KeyOf(col, dateOf), x))
  {
    var found := SearchVideos(FilterVisibility(videos, filter), query);
    if SortKey(option).Some? {
      var (col, desc) := SortKey(option).value;
      SortByPermutes(found, KeyOf(col, dateOf), desc);
      SortByOrdered(found, KeyOf(col, dateOf), desc);
      forall x { SortByStable(found, KeyOf(col, dateOf), desc, x); }
    }
  }

  /** Two videos are taken for the same one when title, date, views and likes agree. */
  predicate SameVideo(a: Video, b: Video)
  {
    a.title == b.title && a.streamedOn == b.streamedOn && a.views == b.views && a.likes == b.likes
  }

  predicate IsSelected(selected: seq<Video>, v: Video)
  {
    exists i :: 0 <= i < |selected| && SameVideo(selected[i], v)
  }

  function DeleteSelected(videos: seq<Video>, selected: seq<Video>): seq<Video>
  {
    Filter(videos, (v: Video) => !IsSelected(selected, v))
  }

  function SetVisibility(videos: seq<Video>, selected: seq<Video>, vis: Visibility): seq<Video>
  {
    Replace(videos, (v: Video) => IsSelected(selected, v), (v: Video) => v.(visibility := vis))
  }

  /**
   * A delete drops every video that agrees with some selected one, selected
   * or not, and keeps the others in order.
   */
  lemma DeleteSelectedExact(videos: seq<Video>, selected: seq<Video>, before: seq<Video>, after: seq<Video>)
    requires videos == before + after
    ensures forall i :: 0 <= i < |videos| ==>
      (videos[i] in DeleteSelected(videos, selected) <==> !IsSelected(selected, videos[i]))
    ensures DeleteSelected(videos, selected) ==
      DeleteSelected(before, selected) + DeleteSelected(after, selected)
  {
    FilterConcat(before, after, (v: Video) => !IsSelected(selected, v));
  }

  /** An unselected twin of a selected video is deleted with it. */
  lemma DeleteTakesDuplicates(videos: seq<Video>, selected: seq<Video>, s: nat, v: Video)
    requires s < |selected| && v in videos && SameVideo(selected[s], v)
    ensures v !in DeleteSelected(videos, selected)
  {
  }

  /** With nothing selected a delete keeps every video. */
  lemma DeleteNothing(videos: seq<Video>)
    ensures DeleteSelected(videos, []) == videos
  {
    FilterKeepsAll(videos, (v: Video) => !IsSelected([], v));
  }

  /**
   * Setting visibility touches only the matching videos and only their
   * visibility, and doing it twice is doing it once.
   */
  lemma SetVisibilityExact(videos: seq<Video>, selected: seq<Video>, vis: Visibility)
    ensures var r := SetVisibility(videos, selected, vis);
      && |r| == |videos|
      && (forall i :: 0 <= i < |videos| ==>
            r[i] == if IsSelected(selected, videos[i]) then videos[i].(visibility := vis) else videos[i])
      && SetVisibility(r, selected, vis) == r
  {
    var r := SetVisibility(videos, selected, vis);
    forall i | 0 <= i < |r| ensures IsSelected(selected, r[i]) == IsSelected(selected, videos[i]) {
      if IsSelected(selected, videos[i]) {
        var k :| 0 <= k < |selected| && SameVideo(selected[k], videos[i]);
        assert SameVideo(selected[k], r[i]);
      }
    }
  }

  /** The state of the content page. */
  class ContentPage {
    var videos: seq<Video>
    var pageSize: nat
    var pageIndex: nat
    var globalFilter: string
    var visibilityFilter: string
    var sortOption: string
    var rowSelection: set<nat>
    var actionValue: string

    ghost predicate Valid()
      reads this
    {
      pageSize > 0
    }

    constructor (initial: seq<Video>)
      ensures Valid()
      ensures videos == initial && pageSize == 5 && pageIndex == 0
      ensures globalFilter == "" && visibilityFilter == "all" && sortOption == "newold"
      ensures rowSelection == {} && actionValue == ""
    {
      videos, pageSize, pageIndex := initial, 5, 0;
      globalFilter, visibilityFilter, sortOption := "", "all", "newold";
      rowSelection, actionValue := {}, "";
    }

    /**
     * `handleAction` for the videos of the selected rows: nothing happens
     * without a selection; a confirmed delete, `private` and `public` update
     * the list and clear the selection; the action menu always resets.
     */
    method HandleAction(action: string, selected: seq<Video>, confirmed: bool)
      modifies this`videos, this`rowSelection, this`actionValue
      ensures actionValue == ""
      ensures selected == [] ==> videos == old(videos) && rowSelection == old(rowSelection)
      ensures selected != [] ==>
        && videos == (if action == "delete" && confirmed then DeleteSelected(old(videos), selected)
                      else if action == "private" then SetVisibility(old(videos), selected, Private)
                      else if action == "public" then SetVisibility(old(videos), selected, Public)
                      else old(videos))
        && rowSelection == (if (action == "delete" && confirmed) || action == "private" || action == "public"
                            then {} else old(rowSelection))
    {
      if selected == [] {
        actionValue := "";
        return;
      }
      if action == "delete" {
        if confirmed {
          videos := DeleteSelected(videos, selected);
          rowSelection := {};
        }
      } else if action == "private" {
        videos := SetVisibility(videos, selected, Private);
        rowSelection := {};
      } else if action == "public" {
        videos := SetVisibility(videos, selected, Public);
        rowSelection := {};
      }
      actionValue := "";
    }

    /** `filteredData`: filters, copies, and sorts the copy in place. */
    method FilteredData(dateOf: string -> int) returns (rows: seq<Video>)
      ensures rows == VisibleVideos(videos, visibilityFilter, globalFilter, sortOption, dateOf)
    {
      var found := SearchVideos(FilterVisibility(videos, visibilityFilter), globalFilter);
      var copy := new Video[|found|](i requires 0 <= i < |found| => found[i]);
      assert copy[..] == found;
      var key := SortKey(sortOption);
      if key.Some? {
        SortInPlace(copy, KeyOf(key.value.0, dateOf), key.value.1);
      }
      rows := copy[..];
    }

    /** The page-button row for `ceil(filtered length / pageSize)` pages. */
    method PageItems(dateOf: string -> int) returns (items: seq<Item>)
      requires Valid()
      ensures items == PageWindow(
        CeilDiv(|VisibleVideos(videos, visibilityFilter, globalFilter, sortOption, dateOf)|, pageSize),
        pageIndex + 1)
    {
      var rows := FilteredData(dateOf);
      items := BuildPageWindow(CeilDiv(|rows|, pageSize), pageIndex + 1);
    }
  }
}
