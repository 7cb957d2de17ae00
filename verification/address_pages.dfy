/** Listing addresses page by page: the pages partition the user's live addresses
    in one order, default first. Page numbers and limits are 64-bit integers. */
module AddressPages {
  import opened AddressBook

  const DEFAULT_LIMIT := 20
  const MAX_LIMIT := 100
  const MAX_INT64 := 0x7FFF_FFFF_FFFF_FFFF
  const MIN_INT64 := -0x8000_0000_0000_0000

  predicate Int64(n: int) { MIN_INT64 <= n <= MAX_INT64 }

  // Two's complement wrap-around.
  function Wrap64(n: int): int { (n + 0x8000_0000_0000_0000) % 0x1_0000_0000_0000_0000 - 0x8000_0000_0000_0000 }

  function ClampPage(page: int): int { if page < 1 then 1 else page }

  function ClampLimit(limit: int): int { if limit < 1 || limit > MAX_LIMIT then DEFAULT_LIMIT else limit }

  /* ---------- ORDER BY is_default DESC, created_at DESC ---------- */

  predicate Before(a: Address, b: Address) {
    (a.isDefault && !b.isDefault) || (a.isDefault == b.isDefault && a.createdAt > b.createdAt)
  }

  function Insert(a: Address, s: seq<Address>): (r: seq<Address>)
    ensures |r| == |s| + 1
    ensures forall x :: x in r <==> x == a || x in s
  {
    if s == [] then [a]
    else if Before(a, s[0]) then [a] + s
    else
      assert s == [s[0]] + s[1..];
      [s[0]] + Insert(a, s[1..])
  }

  function Live(t: seq<Address>, u: nat): seq<Address> {
    if t == [] then []
    else Live(t[..|t| - 1], u) + if LiveRow(t[|t| - 1], u) then [t[|t| - 1]] else []
  }

  function Sort(s: seq<Address>): (r: seq<Address>)
    ensures |r| == |s|
    ensures forall x :: x in r <==> x in s
  {
    if s == [] then []
    else
      assert s == s[..|s| - 1] + [s[|s| - 1]];
      Insert(s[|s| - 1], Sort(s[..|s| - 1]))
  }

  // The rows the query orders.
  function Listing(t: seq<Address>, u: nat): seq<Address> { Sort(Live(t, u)) }

  predicate InOrder(s: seq<Address>) {
    forall i, j | 0 <= i < j < |s| :: Before(s[i], s[j])
  }

  predicate DistinctTimes(t: seq<Address>, u: nat) {
    forall i, j | 0 <= i < j < |t| && LiveRow(t[i], u) && LiveRow(t[j], u) :: t[i].createdAt != t[j].createdAt
  }

  lemma {:induction false} LiveCount(t: seq<Address>, u: nat)
    ensures |Live(t, u)| == CountActive(t, u)
  {
    if t != [] { LiveCount(t[..|t| - 1], u); }
  }

  lemma {:induction false} LiveMembers(t: seq<Address>, u: nat)
    ensures forall a | a in Live(t, u) :: LiveRow(a, u) && a in t
    ensures forall a | a in t && LiveRow(a, u) :: a in Live(t, u)
  {
    if t != [] {
      var init, last := t[..|t| - 1], t[|t| - 1];
      LiveMembers(init, u);
      assert t == init + [last];
      assert forall a | a in t :: a in init || a == last;
    }
  }

  lemma {:induction false} InsertKeepsOrder(a: Address, s: seq<Address>)
    requires InOrder(s) && forall b | b in s :: b.createdAt != a.createdAt
    ensures InOrder(Insert(a, s))
  {
    if s != [] {
      if Before(a, s[0]) {
        forall j | 0 <= j < |s|
          ensures Before(a, s[j])
        {
          if j > 0 { assert Before(s[0], s[j]); }
        }
      } else {
        InsertKeepsOrder(a, s[1..]);
        var r := Insert(a, s[1..]);
        forall j | 0 <= j < |r|
          ensures Before(s[0], r[j])
        {
          assert r[j] in r;
          if r[j] != a { assert r[j] in s[1..]; }
        }
      }
    }
  }

  lemma {:induction false} SortIsInOrder(s: seq<Address>)
    requires forall i, j | 0 <= i < j < |s| :: s[i].createdAt != s[j].createdAt
    ensures InOrder(Sort(s))
  {
    if s != [] {
      var init, last := s[..|s| - 1], s[|s| - 1];
      SortIsInOrder(init);
      forall b | b in Sort(init)
        ensures b.createdAt != last.createdAt
      {
        assert b in init;
      }
      InsertKeepsOrder(last, Sort(init));
    }
  }

  lemma {:induction false} LiveTimesDiffer(t: seq<Address>, u: nat)
    requires DistinctTimes(t, u)
    ensures forall i, j | 0 <= i < j < |Live(t, u)| :: Live(t, u)[i].createdAt != Live(t, u)[j].createdAt
  {
    if t != [] {
      var init, last := t[..|t| - 1], t[|t| - 1];
      LiveTimesDiffer(init, u);
      var l := Live(init, u);
      if LiveRow(last, u) {
        forall i | 0 <= i < |l|
          ensures l[i].createdAt != last.createdAt
        {
          LiveMembers(init, u);
          assert l[i] in init;
          var k :| 0 <= k < |init| && init[k] == l[i];
          assert t[k] == l[i] && t[|t| - 1] == last;
        }
      }
    }
  }

  // Two sequences with the same elements in strict order are the same.
  lemma {:induction false} OrderIsUnique(a: seq<Address>, b: seq<Address>)
    requires InOrder(a) && InOrder(b) && forall x :: x in a <==> x in b
    ensures a == b
  {
    assert (a != [] ==> a[0] in a) && (b != [] ==> b[0] in b);
    if a != [] {
      assert a[0] in b && b[0] in a;
      assert a[0] == b[0];
      forall x
        ensures x in a[1..] <==> x in b[1..]
      {
        TailMembers(a, x);
        TailMembers(b, x);
      }
      OrderIsUnique(a[1..], b[1..]);
      assert a == [a[0]] + a[1..] && b == [b[0]] + b[1..];
    }
  }

  lemma TailMembers(s: seq<Address>, x: Address)
    requires InOrder(s) && s != []
    ensures x in s[1..] <==> x in s && x != s[0]
  {
    assert s == [s[0]] + s[1..];
    assert forall j | 0 < j < |s| :: Before(s[0], s[j]);
  }

  /** With distinct creation times the ordered result is determined: it is the one
      strictly ordered arrangement of the user's live rows, each exactly once. */
  lemma ListingIsTheOrder(t: seq<Address>, u: nat, s: seq<Address>)
    requires DistinctTimes(t, u)
    ensures InOrder(s) && (forall a :: a in s <==> a in t && LiveRow(a, u)) <==> s == Listing(t, u)
    ensures |Listing(t, u)| == CountActive(t, u)
  {
    LiveTimesDiffer(t, u);
    SortIsInOrder(Live(t, u));
    LiveCount(t, u);
    LiveMembers(t, u);
    if InOrder(s) && forall a :: a in s <==> a in t && LiveRow(a, u) { OrderIsUnique(s, Listing(t, u)); }
  }

  /* ---------- pages ---------- */

  function Least(x: int, y: int): int { if x <= y then x else y }

  // LIMIT and OFFSET.
  function Slice(s: seq<Address>, offset: nat, limit: nat): (r: seq<Address>)
    ensures |r| <= limit
  {
    s[Least(offset, |s|)..Least(offset + limit, |s|)]
  }

  datatype PageReply = Page(items: seq<Address>, total: nat, page: int, limit: int) | ListFailed

  // A negative OFFSET is an error of the database.
  function Answer(listing: seq<Address>, total: nat, page: int, limit: int): PageReply {
    var p, l := ClampPage(page), ClampLimit(limit);
    var offset := Wrap64((p - 1) * l);
    if offset < 0 then ListFailed else Page(Slice(listing, offset, l), total, p, l)
  }

  function GetAddresses(t: seq<Address>, u: nat, page: int, limit: int): PageReply
    requires Int64(page) && Int64(limit)
  {
    Answer(Listing(t, u), CountActive(t, u), page, limit)
  }

  lemma ProductGrows(x: nat, y: nat, z: nat)
    requires x <= y
    ensures 0 <= x * z <= y * z
  {
    assert y * z == x * z + (y - x) * z;
  }

  // Page p of s, with no bound on the integers.
  function PageOf(s: seq<Address>, p: int, limit: nat): seq<Address>
    requires p >= 1
  {
    ProductGrows(0, p - 1, limit);
    Slice(s, (p - 1) * limit, limit)
  }

  // Pages 1 to n, one after the other.
  function FirstPages(s: seq<Address>, limit: nat, n: nat): seq<Address> {
    if n == 0 then [] else FirstPages(s, limit, n - 1) + PageOf(s, n, limit)
  }

  // How many pages total rows make: the least n with n * limit >= total.
  function PageCount(total: nat, limit: nat): (n: nat)
    requires limit > 0
    ensures n * limit >= total
    ensures n > 0 ==> (n - 1) * limit < total
  {
    if total == 0 then 0
    else
      DivisionBounds(total - 1, limit);
      (total - 1) / limit + 1
  }

  lemma DivisionBounds(x: nat, y: nat)
    requires y > 0
    ensures x / y * y <= x < (x / y + 1) * y
  {
  }

  lemma {:induction false} FirstPagesArePrefix(s: seq<Address>, limit: nat, n: nat)
    requires limit > 0
    ensures n * limit >= 0 && FirstPages(s, limit, n) == s[..Least(n * limit, |s|)]
  {
    if n > 0 {
      FirstPagesArePrefix(s, limit, n - 1);
      assert n * limit == (n - 1) * limit + limit;
    }
  }

  lemma LaterPageEmpty(s: seq<Address>, limit: nat, n: nat, p: int)
    requires n * limit >= |s| && p > n
    ensures PageOf(s, p, limit) == []
  {
    ProductGrows(n, p - 1, limit);
  }

  lemma EarlierPageFull(s: seq<Address>, limit: nat, n: nat, p: int)
    requires n > 0 && (n - 1) * limit < |s| && 1 <= p < n
    ensures |PageOf(s, p, limit)| == limit
  {
    ProductGrows(p, n - 1, limit);
    assert p * limit == (p - 1) * limit + limit;
  }

  /** Pages 1 to the page count, put together, are the listing: every live row
      exactly once; every later page is empty, and every earlier but the last full. */
  lemma PagesPartition(s: seq<Address>, limit: int)
    ensures var l := ClampLimit(limit);
            var n := PageCount(|s|, l);
            && FirstPages(s, l, n) == s
            && (forall p | p > n :: PageOf(s, p, l) == [])
            && (forall p | 1 <= p < n :: |PageOf(s, p, l)| == l)
  {
    var l := ClampLimit(limit);
    var n := PageCount(|s|, l);
    FirstPagesArePrefix(s, l, n);
    forall p | p > n
      ensures PageOf(s, p, l) == []
    {
      LaterPageEmpty(s, l, n, p);
    }
    forall p | 1 <= p < n
      ensures |PageOf(s, p, l)| == l
    {
      EarlierPageFull(s, l, n, p);
    }
  }

  lemma WrapIsIdentity(n: int)
    ensures Int64(n) ==> Wrap64(n) == n
    ensures Int64(Wrap64(n))
  {
  }

  // The row offset of a page, with no bound on the integers.
  function Offset(page: int, limit: int): (n: int)
    ensures n >= 0
  {
    ProductGrows(0, ClampPage(page) - 1, ClampLimit(limit));
    (ClampPage(page) - 1) * ClampLimit(limit)
  }

  /** The call answers with the page it should exactly when the offset does not
      wrap past the 64-bit range onto the rows or below zero. */
  lemma PageIsRightIff(s: seq<Address>, total: nat, page: int, limit: int)
    requires |s| <= MAX_INT64
    ensures var p, l := ClampPage(page), ClampLimit(limit);
            var offset := Offset(page, limit);
            && (Answer(s, total, page, limit) == Page(PageOf(s, p, l), total, p, l)
                <==> offset <= MAX_INT64 || Wrap64(offset) >= |s|)
            && (Answer(s, total, page, limit) == ListFailed <==> Wrap64(offset) < 0)
  {
    var p, l := ClampPage(page), ClampLimit(limit);
    var offset := Offset(page, limit);
    WrapIsIdentity(offset);
    if offset > MAX_INT64 {
      assert PageOf(s, p, l) == [];
      var w := Wrap64(offset);
      if 0 <= w < |s| {
        assert |Slice(s, w, l)| > 0;
      } else if w >= |s| {
        assert Slice(s, w, l) == [];
      }
    }
  }

  lemma InRangeUpTo(p: int, n: nat, limit: int, total: nat)
    requires 1 <= p <= n == PageCount(total, ClampLimit(limit)) && total <= MAX_INT64
    ensures Offset(p, limit) <= MAX_INT64
  {
    ProductGrows(p - 1, n - 1, ClampLimit(limit));
  }

  /** Asking for the pages in turn shows every live address of the user exactly
      once, in order; any later page whose offset is in range is empty. */
  lemma PagesShowEveryAddressOnce(t: seq<Address>, u: nat, limit: int)
    requires CountActive(t, u) <= MAX_INT64 && Int64(limit)
    ensures var s, l := Listing(t, u), ClampLimit(limit);
            var n := PageCount(CountActive(t, u), l);
            && FirstPages(s, l, n) == s
            && (forall p | 1 <= p <= n && Int64(p) :: GetAddresses(t, u, p, limit) == Page(PageOf(s, p, l), |s|, p, l))
            && (forall p | n < p && Int64(p) && Offset(p, limit) <= MAX_INT64 ::
                  GetAddresses(t, u, p, limit) == Page([], |s|, p, l))
  {
    var s, l := Listing(t, u), ClampLimit(limit);
    LiveCount(t, u);
    PagesPartition(s, limit);
    var n := PageCount(|s|, l);
    forall p | 1 <= p <= n && Int64(p)
      ensures GetAddresses(t, u, p, limit) == Page(PageOf(s, p, l), |s|, p, l)
    {
      InRangeUpTo(p, n, limit, |s|);
      PageIsRightIff(s, |s|, p, limit);
    }
    forall p | n < p && Int64(p) && Offset(p, limit) <= MAX_INT64
      ensures GetAddresses(t, u, p, limit) == Page([], |s|, p, l)
    {
      PageIsRightIff(s, |s|, p, limit);
    }
  }

  /** So a page far beyond the last shows the first page's rows when its offset
      wraps to zero, and fails when it wraps below zero. */
  lemma HugePagesGoWrong(s: seq<Address>, total: nat)
    ensures Answer(s, total, 0x4000_0000_0000_0001, 4) == Page(PageOf(s, 1, 4), total, 0x4000_0000_0000_0001, 4)
    ensures s != [] ==> PageOf(s, 1, 4) != []
    ensures Answer(s, total, MAX_INT64, 20) == ListFailed
  {
    assert Wrap64(0x4000_0000_0000_0000 * 4) == 0;
    assert Wrap64((MAX_INT64 - 1) * 20) < 0;
  }

  lemma DefaultIsFirst(s: seq<Address>, a: Address)
    requires InOrder(s) && a in s && a.isDefault
    requires forall b | b in s && b.isDefault :: b == a
    ensures s[0] == a && forall k | 0 < k < |s| :: !s[k].isDefault
  {
    var k :| 0 <= k < |s| && s[k] == a;
    assert forall j | 0 < j < |s| :: Before(s[0], s[j]);
    assert s[0] in s;
    forall j | 0 < j < |s|
      ensures !s[j].isDefault
    {
      assert s[j] in s && Before(s[0], s[j]);
    }
  }

  /** A default address, if there is one, comes first on the first page, and no
      other listed address is a default. */
  lemma DefaultComesFirst(t: seq<Address>, u: nat, page: int, limit: int, i: nat)
    requires Kept(t) && DistinctTimes(t, u)
    requires i < |t| && LiveRow(t[i], u) && t[i].isDefault
    requires Int64(page) && page <= 1 && Int64(limit)
    ensures var reply := GetAddresses(t, u, page, limit);
            reply.Page? && |reply.items| > 0 && reply.items[0] == t[i]
            && forall k | 0 < k < |reply.items| :: !reply.items[k].isDefault
  {
    var s := Listing(t, u);
    ListingIsTheOrder(t, u, s);
    assert t[i] in t && t[i] in s;
    forall b | b in s && b.isDefault
      ensures b == t[i]
    {
      var m :| 0 <= m < |t| && t[m] == b;
    }
    DefaultIsFirst(s, t[i]);
    FirstPage(s, CountActive(t, u), page, limit);
  }

  lemma FirstPage(s: seq<Address>, total: nat, page: int, limit: int)
    requires page <= 1
    ensures Answer(s, total, page, limit) ==
            Page(s[..Least(ClampLimit(limit), |s|)], total, 1, ClampLimit(limit))
  {
    assert Wrap64(0) == 0;
  }

  /** In every reachable book a caller that asks for ten or more gets every live
      address on the first page. */
  lemma OnePageIsEnough(r: Run, u: nat, limit: int)
    requires Int64(limit) && (limit < 1 || limit >= MAX_ADDRESSES)
    ensures GetAddresses(After(r), u, 1, limit) ==
            Page(Listing(After(r), u), |Listing(After(r), u)|, 1, ClampLimit(limit))
  {
    BookIsKept(r);
    var t := After(r);
    LiveCount(t, u);
    FirstPage(Listing(t, u), CountActive(t, u), 1, limit);
  }

  /** Of two rows on one page the earlier is the default, or neither or both are
      and it was created later; and the page holds only the user's live rows. */
  lemma RepliesAreNewestFirst(t: seq<Address>, u: nat, page: int, limit: int, i: nat, j: nat)
    requires DistinctTimes(t, u) && Int64(page) && Int64(limit)
    requires GetAddresses(t, u, page, limit).Page? && i < j < |GetAddresses(t, u, page, limit).items|
    ensures var items := GetAddresses(t, u, page, limit).items;
            && (if items[i].isDefault != items[j].isDefault then items[i].isDefault
                else items[i].createdAt > items[j].createdAt)
            && items[i].user == u && !items[i].deleted && items[i] in t
  {
    var s := Listing(t, u);
    ListingIsTheOrder(t, u, s);
    var l := ClampLimit(limit);
    var offset := Wrap64((ClampPage(page) - 1) * l);
    var items := GetAddresses(t, u, page, limit).items;
    assert items == Slice(s, offset, l);
    var from := Least(offset, |s|);
    assert items[i] == s[from + i] && items[j] == s[from + j];
    assert Before(s[from + i], s[from + j]);
    assert s[from + i] in s;
  }

  /** A page below one reads as page one, and a limit outside 1 to 100 as 20. */
  lemma PageIsAsAsked(t: seq<Address>, u: nat, page: int, limit: int)
    requires Int64(page) && Int64(limit)
    ensures var reply := GetAddresses(t, u, page, limit);
            reply.Page? ==>
              && reply.page == (if page >= 1 then page else 1)
              && reply.limit == (if 1 <= limit <= 100 then limit else 20)
              && reply.total == CountActive(t, u) && |reply.items| <= reply.limit
  {
  }
}
