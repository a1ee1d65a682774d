/**
 * The server-paged creator table: it fetches one page of users, normalises
 * them, searches and sorts the page it holds, and deletes, blocks or
 * unblocks one user at a time after the backend confirms.
 *
 * The backend is reduced to its answers (`UsersResponse`, a `success` flag
 * per action) and the calendar formatting of `toISOString` to the parameter
 * `isoDate`, which gives the `YYYY-MM-DD` text of a UTC day number.
 */
module CreatorUsers {
  import opened Wrappers
  import opened Text
  import opened Lists
  import opened StableSort
  import opened Paging

  /** A user as the backend sends it. */
  datatype RawUser = RawUser(
    id: string, role: string, email: string, status: Option<string>,
    followers: int, likes: int, views: int,
    channelName: Option<string>, username: Option<string>, isBlocked: Option<bool>)

  /** A table row: the user with its status normalised and its join date added. */
  datatype TableUser = TableUser(
    id: string, role: string, email: string, status: string,
    followers: int, likes: int, views: int,
    channelName: Option<string>, username: Option<string>, isBlocked: Option<bool>,
    day: int, joinedOn: string)

  /** The fields of the list response the page reads. */
  datatype UsersResponse = UsersResponse(
    success: bool, data: Option<seq<RawUser>>,
    total: Option<int>, totalCount: Option<int>,
    paginationTotal: Option<int>, metaTotal: Option<int>)

  datatype Action = Delete | Block | Unblock

  /** The value of the leading hex digits of `s`, and how many there are. */
  function LeadingHex(s: string): (r: (nat, nat))
    ensures r.1 <= |s|
    decreases |s|
  {
    if s == [] || !IsHexDigit(s[0]) then (0, 0)
    else
      var rest := LeadingHex(s[1..]);
      (HexValue(s[0]) * Pow16(rest.1) + rest.0, rest.1 + 1)
  }

  function Pow16(n: nat): (p: nat)
    ensures p >= 1
  {
    if n == 0 then 1 else 16 * Pow16(n - 1)
  }

  /**
   * `parseInt(id.substring(0, 8), 16)`: the creation time, in seconds, that
   * an ObjectId carries in its first eight hex digits; `None` (NaN) when the
   * id does not start with a hex digit.
   */
  function IdSeconds(id: string): (r: Option<nat>)
    ensures r.Some? <==> id != [] && IsHexDigit(id[0])
  {
    var prefix := if |id| <= 8 then id else id[..8];
    var (v, n) := LeadingHex(prefix);
    if n == 0 then None else Some(v)
  }

  predicate AllHex(h: string)
  {
    forall i :: 0 <= i < |h| ==> IsHexDigit(h[i])
  }

  /** The base-16 value of a run of hex digits, most significant first. */
  function HexDigitsValue(h: string): nat
    requires AllHex(h)
    decreases |h|
  {
    if h == [] then 0 else HexDigitsValue(h[..|h| - 1]) * 16 + HexValue(h[|h| - 1])
  }

  /** `n` hex digits stay below `16^n`. */
  lemma {:induction false} HexDigitsBound(h: string)
    requires AllHex(h)
    ensures HexDigitsValue(h) < Pow16(|h|)
    decreases |h|
  {
    if h != [] {
      HexDigitsBound(h[..|h| - 1]);
    }
  }

  /** The leading digit weighs `16^(n-1)`. */
  lemma {:induction false} HexDigitsHead(h: string)
    requires AllHex(h) && h != []
    ensures HexDigitsValue(h) == HexValue(h[0]) * Pow16(|h| - 1) + HexDigitsValue(h[1..])
    decreases |h|
  {
    if |h| > 1 {
      var init := h[..|h| - 1];
      HexDigitsHead(init);
      var a, p, w, l := HexValue(h[0]), Pow16(|h| - 2), HexDigitsValue(init[1..]), HexValue(h[|h| - 1]);
      assert HexDigitsValue(init) == a * p + w;
      assert init[1..] == h[1..][..|h| - 2];
      assert HexDigitsValue(h[1..]) == w * 16 + l;
      assert HexDigitsValue(h) == (a * p + w) * 16 + l;
      assert (a * p + w) * 16 == (a * p) * 16 + w * 16;
      MulSixteen(a, p);
    } else {
      assert h[..0] == [] && h[1..] == [];
    }
  }

  lemma MulSixteen(a: int, p: int)
    ensures (a * p) * 16 == a * (16 * p)
  {
  }

  /** A hex run followed by a non-hex character (or nothing) is read whole. */
  lemma {:induction false} LeadingHexOf(h: string, rest: string)
    requires AllHex(h)
    requires rest == [] || !IsHexDigit(rest[0])
    ensures LeadingHex(h + rest) == (HexDigitsValue(h), |h|)
    decreases |h|
  {
    if h != [] {
      assert (h + rest)[0] == h[0] && (h + rest)[1..] == h[1..] + rest;
      LeadingHexOf(h[1..], rest);
      HexDigitsHead(h);
    } else {
      assert h + rest == rest;
    }
  }

  /**
   * The seconds an id carries: its leading hex digits, at most eight of
   * them, read most significant first; the value fits in 32 bits.
   */
  lemma IdSecondsValue(h: string, rest: string)
    requires AllHex(h) && 1 <= |h| <= 8
    requires |h| == 8 || rest == [] || !IsHexDigit(rest[0])
    ensures IdSeconds(h + rest) == Some(HexDigitsValue(h))
    ensures HexDigitsValue(h) < Pow16(|h|) <= 0x1_0000_0000
  {
    var id := h + rest;
    var prefix := if |id| <= 8 then id else id[..8];
    var tail := prefix[|h|..];
    assert prefix == h + tail;
    assert tail == [] || tail[0] == rest[0];
    LeadingHexOf(h, tail);
    HexDigitsBound(h);
    Pow16Grows(|h|, 8);
  }

  lemma {:induction false} Pow16Grows(m: nat, n: nat)
    requires m <= n
    ensures Pow16(m) <= Pow16(n)
    decreases n
  {
    if m < n {
      Pow16Grows(m, n - 1);
    }
  }

  /** The UTC day of a time in seconds. */
  function DayOf(seconds: nat): int
  {
    seconds / 86400
  }

  /** `status ? status.toLowerCase() : 'active'`. */
  function NormalStatus(status: Option<string>): string
  {
    if status.Some? && status.value != [] then Lower(status.value) else "active"
  }

  /**
   * A normalised status is never empty and has no ASCII capital, so the
   * page's comparisons with `blocked` and `active` ignore case; normalising
   * it again changes nothing.
   */
  lemma NormalStatusNormal(status: Option<string>)
    ensures var r := NormalStatus(status);
      && r != []
      && (forall i :: 0 <= i < |r| ==> !('A' <= r[i] <= 'Z'))
      && NormalStatus(Some(r)) == r
  {
    if status.Some? && status.value != [] {
      LowerNoCapitals(status.value);
      LowerIdempotent(status.value);
    } else {
      assert Lower("active") == "active";
    }
  }

  function ToRow(u: RawUser, seconds: nat, isoDate: int -> string): TableUser
  {
    TableUser(u.id, u.role, u.email, NormalStatus(u.status), u.followers, u.likes, u.views,
              u.channelName, u.username, u.isBlocked, DayOf(seconds), isoDate(DayOf(seconds)))
  }

  /**
   * `data.map(...)`: `None` when some id has no timestamp, for which
   * `toISOString` throws and the whole transform is abandoned.
   */
  function Transform(data: seq<RawUser>, isoDate: int -> string): (r: Option<seq<TableUser>>)
    ensures r.Some? <==> forall i :: 0 <= i < |data| ==> IdSeconds(data[i].id).Some?
    ensures r.Some? ==> |r.value| == |data| && forall i :: 0 <= i < |data| ==>
      r.value[i] == ToRow(data[i], IdSeconds(data[i].id).value, isoDate)
    decreases |data|
  {
    if data == [] then Some([])
    else
      var head := IdSeconds(data[0].id);
      var rest := Transform(data[1..], isoDate);
      if head.None? || rest.None? then None
      else Some([ToRow(data[0], head.value, isoDate)] + rest.value)
  }

  predicate Truthy(n: Option<int>)
  {
    n.Some? && n.value != 0
  }

  /**
   * `total || totalCount || pagination?.total || meta?.total`, and the list
   * length when that is `undefined`.
   */
  function ReportedTotal(r: UsersResponse, count: int): int
  {
    if Truthy(r.total) then r.total.value
    else if Truthy(r.totalCount) then r.totalCount.value
    else if Truthy(r.paginationTotal) then r.paginationTotal.value
    else if r.metaTotal.Some? then r.metaTotal.value
    else count
  }

  /** The users and the total that `fetchUsers` stores. */
  function FetchResult(r: UsersResponse, isoDate: int -> string): (seq<TableUser>, int)
  {
    if r.success && r.data.Some? then
      match Transform(r.data.value, isoDate)
      case Some(rows) => (rows, ReportedTotal(r, |rows|))
      case None => ([], 0)
    else ([], 0)
  }

  /** A failed request, or a response without data, empties the table. */
  lemma FetchFailure(r: UsersResponse, isoDate: int -> string)
    requires !r.success || r.data.None?
    ensures FetchResult(r, isoDate) == ([], 0)
  {
  }

  /**
   * A successful fetch keeps every user in order, with the status lower-cased
   * (`active` when missing or empty) and the join date taken from the id.
   */
  lemma FetchNormalises(r: UsersResponse, isoDate: int -> string, i: nat)
    requires r.success && r.data.Some? && i < |r.data.value|
    requires forall k :: 0 <= k < |r.data.value| ==> IdSeconds(r.data.value[k].id).Some?
    ensures var (rows, _) := FetchResult(r, isoDate);
      var u := r.data.value[i];
      && |rows| == |r.data.value|
      && rows[i].id == u.id && rows[i].role == u.role && rows[i].email == u.email
      && rows[i].followers == u.followers && rows[i].likes == u.likes && rows[i].views == u.views
      && rows[i].channelName == u.channelName && rows[i].username == u.username
      && rows[i].isBlocked == u.isBlocked
      && rows[i].status == (if u.status.None? || u.status.value == [] then "active" else Lower(u.status.value))
      && rows[i].day == IdSeconds(u.id).value / 86400
      && rows[i].joinedOn == isoDate(IdSeconds(u.id).value / 86400)
  {
  }

  /**
   * The total is the first non-zero count among `total`, `totalCount` and
   * `pagination.total`; failing those, `meta.total` whenever it is present,
   * even when it is 0; and the page length only when `meta.total` is absent,
   * even if an earlier count was present but 0.
   */
  lemma FetchTotal(r: UsersResponse, isoDate: int -> string)
    requires r.success && r.data.Some?
    requires forall k :: 0 <= k < |r.data.value| ==> IdSeconds(r.data.value[k].id).Some?
    ensures var (_, total) := FetchResult(r, isoDate);
      && (Truthy(r.total) ==> total == r.total.value)
      && (!Truthy(r.total) && Truthy(r.totalCount) ==> total == r.totalCount.value)
      && (!Truthy(r.total) && !Truthy(r.totalCount) && Truthy(r.paginationTotal) ==>
            total == r.paginationTotal.value)
      && (!Truthy(r.total) && !Truthy(r.totalCount) && !Truthy(r.paginationTotal) && r.metaTotal.Some? ==>
            total == r.metaTotal.value)
      && (!Truthy(r.total) && !Truthy(r.totalCount) && !Truthy(r.paginationTotal) && r.metaTotal.None? ==>
            total == |r.data.value|)
  {
  }

  /** One id without a timestamp makes the whole fetch fail. */
  lemma FetchBadId(r: UsersResponse, isoDate: int -> string, i: nat)
    requires r.success && r.data.Some? && i < |r.data.value|
    requires IdSeconds(r.data.value[i].id).None?
    ensures FetchResult(r, isoDate) == ([], 0)
  {
  }

  /** The search looks at the channel name, username, email and join date. */
  predicate UserMatches(u: TableUser, query: string)
  {
    OptionalIncludes(u.channelName, query) || OptionalIncludes(u.username, query) ||
    IncludesIgnoringCase(u.email, query) || IncludesIgnoringCase(u.joinedOn, query)
  }

  function SearchUsers(users: seq<TableUser>, query: string): seq<TableUser>
  {
    if query == "" then users else Filter(users, u => UserMatches(u, query))
  }

  /** A user is kept iff it matches; the empty query keeps every user. */
  lemma SearchKeeps(users: seq<TableUser>, query: string)
    ensures var r := SearchUsers(users, query);
      && (forall i :: 0 <= i < |users| ==> (users[i] in r <==> query == "" || UserMatches(users[i], query)))
      && (forall i :: 0 <= i < |r| ==> r[i] in users)
      && (query == "" ==> r == users)
  {
  }

  /**
   * Skipping the filter for the empty query changes nothing: every user with
   * an email matches the empty string.
   */
  lemma EmptySearchAgrees(users: seq<TableUser>)
    ensures Filter(users, u => UserMatches(u, "")) == users
  {
    forall i | 0 <= i < |users| ensures UserMatches(users[i], "") {
      ContainsEmpty(Lower(users[i].email));
    }
    FilterKeepsAll(users, u => UserMatches(u, ""));
  }

  datatype Column = Joined | Followers | Views | Likes

  /** The sort options: the column and whether it is descending. */
  function SortKey(option: string): Option<(Column, bool)>
  {
    if option == "newold" then Some((Joined, true))
    else if option == "oldnew" then Some((Joined, false))
    else if option == "FHL" then Some((Followers, true))
    else if option == "FLH" then Some((Followers, false))
    else if option == "VHL" then Some((Views, true))
    else if option == "VLH" then Some((Views, false))
    else if option == "LHL" then Some((Likes, true))
    else if option == "LLH" then Some((Likes, false))
    else None
  }

  function KeyOf(col: Column): TableUser -> real
  {
    match col
    case Joined => (u: TableUser) => u.day as real
    case Followers => (u: TableUser) => u.followers as real
    case Views => (u: TableUser) => u.views as real
    case Likes => (u: TableUser) => u.likes as real
  }

  /** The rows the table shows: the search result, sorted by the chosen option. */
  function VisibleUsers(users: seq<TableUser>, query: string, option: string): seq<TableUser>
  {
    var found := SearchUsers(users, query);
    match SortKey(option)
    case Some((col, desc)) => SortBy(found, KeyOf(col), desc)
    case None => found
  }

  /**
   * The rows are a permutation of the search result, ordered and stable by
   * the chosen key; an unknown option keeps the search order.
   */
  lemma VisibleUsersSorted(users: seq<TableUser>, query: string, option: string)
    ensures var found := SearchUsers(users, query);
      var r := VisibleUsers(users, query, option);
      && multiset(r) == multiset(found)
      && (SortKey(option).None? ==> r == found)
      && (SortKey(option).Some? ==>
            var (col, desc) := SortKey(option).value;
            Ordered(r, KeyOf(col), desc) &&
            forall v :: WithKey(r, KeyOf(col), v) == WithKey(found, KeyOf(col), v))
  {
    var found := SearchUsers(users, query);
    if SortKey(option).Some? {
      var (col, desc) := SortKey(option).value;
      SortByPermutes(found, KeyOf(col), desc);
      SortByOrdered(found, KeyOf(col), desc);
      forall v { SortByStable(found, KeyOf(col), desc, v); }
    }
  }

  /** `users.filter(user => user._id !== id)`. */
  function RemoveUser(users: seq<TableUser>, id: string): seq<TableUser>
  {
    Filter(users, (u: TableUser) => u.id != id)
  }

  /** The status update of a block (`blocked`) or an unblock (`active`). */
  function SetBlocked(users: seq<TableUser>, id: string, blocked: bool): seq<TableUser>
  {
    Replace(users, (u: TableUser) => u.id == id,
            (u: TableUser) => u.(status := if blocked then "blocked" else "active", isBlocked := Some(blocked)))
  }

  /** A delete removes exactly the users with the id and keeps the others in order. */
  lemma RemoveUserExact(users: seq<TableUser>, id: string, before: seq<TableUser>, after: seq<TableUser>)
    requires users == before + after
    ensures forall i :: 0 <= i < |users| ==> (users[i] in RemoveUser(users, id) <==> users[i].id != id)
    ensures forall u :: u in RemoveUser(users, id) ==> u.id != id
    ensures RemoveUser(users, id) == RemoveUser(before, id) + RemoveUser(after, id)
  {
    FilterConcat(before, after, (u: TableUser) => u.id != id);
  }

  /**
   * A block or unblock changes only the status fields of the users with the
   * id; every other user and field is unchanged.
   */
  lemma SetBlockedOnlySelected(users: seq<TableUser>, id: string, blocked: bool)
    ensures var r := SetBlocked(users, id, blocked);
      |r| == |users| &&
      forall i :: 0 <= i < |users| ==>
        if users[i].id == id then
          r[i].status == (if blocked then "blocked" else "active") && r[i].isBlocked == Some(blocked) &&
          r[i] == users[i].(status := r[i].status, isBlocked := r[i].isBlocked)
        else r[i] == users[i]
  {
  }

  /** Blocking (or unblocking) twice is the same as once. */
  lemma SetBlockedIdempotent(users: seq<TableUser>, id: string, blocked: bool)
    ensures SetBlocked(SetBlocked(users, id, blocked), id, blocked) == SetBlocked(users, id, blocked)
  {
  }

  /** The list after a successful action on the user with `_id` equal to `id`. */
  function ApplyAction(users: seq<TableUser>, id: string, action: Action): seq<TableUser>
  {
    match action
    case Delete => RemoveUser(users, id)
    case Block => SetBlocked(users, id, true)
    case Unblock => SetBlocked(users, id, false)
  }

  /** After deleting the only user of a page other than the first, step back a page. */
  function StepBack(pageIndex: nat, countBefore: nat): nat
  {
    if countBefore == 1 && pageIndex > 0 then pageIndex - 1 else pageIndex
  }

  lemma LessByFactor(a: int, b: int, d: int)
    requires d > 0 && a * d < b * d
    ensures a < b
  {
  }

  /**
   * After a delete from page `pageIndex` (0-based), which showed
   * `countBefore` of the `total` users, the page the table moves to still
   * exists unless no user is left; and when the deleted user was the only
   * one on the last page, the table moves to the new last page.
   */
  lemma StepBackKeepsPage(pageIndex: nat, countBefore: nat, total: int, pageSize: int)
    requires pageSize > 0 && countBefore >= 1
    requires pageIndex * pageSize + countBefore <= total
    ensures total - 1 == 0 || StepBack(pageIndex, countBefore) < CeilDiv(total - 1, pageSize)
    ensures countBefore == 1 && pageIndex > 0 && total == pageIndex * pageSize + 1 ==>
      StepBack(pageIndex, countBefore) == CeilDiv(total - 1, pageSize) - 1
  {
    var pages := CeilDiv(total - 1, pageSize);
    CeilDivBounds(total - 1, pageSize);
    if countBefore == 1 && pageIndex > 0 {
      // total - 1 is at least pageIndex * pageSize, so no fewer pages remain
      LessByFactor(pageIndex - 1, pages, pageSize);
      if total == pageIndex * pageSize + 1 {
        LessByFactor(pages - 1, pageIndex, pageSize);
      }
    } else if total - 1 != 0 {
      LessByFactor(pageIndex, pages, pageSize);
    }
  }

  /** The state of the creator page. */
  class CreatorUsersPage {
    var users: seq<TableUser>
    var totalUsers: int
    var loading: bool
    var pageIndex: nat
    var pageSize: nat
    var globalFilter: string
    var sortOption: string
    var dialogOpen: bool
    var selectedUser: Option<TableUser>
    var actionType: Action
    var processing: bool

    /** The page size is positive, and no action is in flight between calls. */
    ghost predicate Valid()
      reads this
    {
      pageSize > 0 && !processing
    }

    constructor ()
      ensures Valid()
      ensures users == [] && totalUsers == 0 && loading && pageIndex == 0 && pageSize == 5
      ensures globalFilter == "" && sortOption == "newold"
      ensures !dialogOpen && selectedUser.None? && actionType == Delete && !processing
    {
      users, totalUsers, loading := [], 0, true;
      pageIndex, pageSize := 0, 5;
      globalFilter, sortOption := "", "newold";
      dialogOpen, selectedUser, actionType, processing := false, None, Delete, false;
    }

    /** `fetchUsers`: stores the users and total of a response. */
    method FetchUsers(r: UsersResponse, isoDate: int -> string)
      modifies this`users, this`totalUsers, this`loading
      ensures (users, totalUsers) == FetchResult(r, isoDate)
      ensures !loading
    {
      loading := true;
      if r.success && r.data.Some? {
        var rows := Transform(r.data.value, isoDate);
        if rows.Some? {
          users := rows.value;
          totalUsers := ReportedTotal(r, |rows.value|);
        } else {
          users, totalUsers := [], 0;
        }
      } else {
        users, totalUsers := [], 0;
      }
      loading := false;
    }

    /** `openDialog`: remembers the user and the action to confirm. */
    method OpenDialog(user: TableUser, action: Action)
      modifies this`selectedUser, this`actionType, this`dialogOpen
      ensures selectedUser == Some(user) && actionType == action && dialogOpen
    {
      selectedUser, actionType, dialogOpen := Some(user), action, true;
    }

    /**
     * `handleAction` once the backend has answered `success`: on success the
     * list is updated, the dialog closed, and a page emptied by a delete is
     * left for the previous one; on failure nothing but `processing` moves.
     */
    method HandleAction(success: bool)
      requires Valid()
      modifies this
      ensures Valid() && !processing
      ensures old(selectedUser).None? || !success ==>
        users == old(users) && totalUsers == old(totalUsers) && pageIndex == old(pageIndex) &&
        dialogOpen == old(dialogOpen) && selectedUser == old(selectedUser)
      ensures old(selectedUser).Some? && success ==>
        var id := old(selectedUser).value.id;
        && users == ApplyAction(old(users), id, old(actionType))
        && totalUsers == (if old(actionType) == Delete then old(totalUsers) - 1 else old(totalUsers))
        && pageIndex == (if old(actionType) == Delete then StepBack(old(pageIndex), |old(users)|)
                         else old(pageIndex))
        && !dialogOpen && selectedUser.None?
      ensures loading == old(loading) && pageSize == old(pageSize)
      ensures globalFilter == old(globalFilter) && sortOption == old(sortOption)
      ensures actionType == old(actionType)
    {
      if selectedUser.None? {
        return;
      }
      processing := true;
      if success {
        var deleting := actionType == Delete;
        users, pageIndex := ApplyAction(users, selectedUser.value.id, actionType),
          if deleting then StepBack(pageIndex, |users|) else pageIndex;
        totalUsers := if deleting then totalUsers - 1 else totalUsers;
        dialogOpen, selectedUser := false, None;
      }
      processing := false;
    }

    /** `filteredData`: searches, copies, and sorts the copy in place. */
    method FilteredData() returns (rows: seq<TableUser>)
      ensures rows == VisibleUsers(users, globalFilter, sortOption)
    {
      var found := SearchUsers(users, globalFilter);
      var copy := new TableUser[|found|](i requires 0 <= i < |found| => found[i]);
      assert copy[..] == found;
      var key := SortKey(sortOption);
      if key.Some? {
        SortInPlace(copy, KeyOf(key.value.0), key.value.1);
      }
      rows := copy[..];
    }

    /** The page-button row for `ceil(totalUsers / pageSize)` pages. */
    method PageItems() returns (items: seq<Item>)
      requires Valid()
      ensures items == PageWindow(CeilDiv(totalUsers, pageSize), pageIndex + 1)
    {
      items := BuildPageWindow(CeilDiv(totalUsers, pageSize), pageIndex + 1);
    }
  }
}
