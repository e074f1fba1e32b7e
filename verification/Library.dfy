/** Keyset traversal and paging of the library: rows ordered by `last_seen_at` and then `id`, both
    descending, so that equal timestamps still have a definite order. */
module Library {
  import opened Text

  datatype DownloadStatus = Downloaded | Filtered | Missing | RetentionDeleted

  datatype Row = Row(
    id: nat, profile: string, status: DownloadStatus, lastSeenAt: int, played: bool, favorite: bool,
    title: Option<string>, sourceName: string, fileExt: Option<string>, filePath: Option<string>)

  // `id` is the primary key of the table.
  predicate Keyed(rows: set<Row>) {
    forall r, s | r in rows && s in rows && r.id == s.id :: r == s
  }

  // order_by("-last_seen_at", "-id")
  predicate Before(a: Row, b: Row) {
    a.lastSeenAt > b.lastSeenAt || (a.lastSeenAt == b.lastSeenAt && a.id > b.id)
  }

  predicate Ordered(rows: seq<Row>) {
    forall i, j | 0 <= i < j < |rows| :: Before(rows[i], rows[j])
  }

  function Elements(rows: seq<Row>): set<Row> { set r | r in rows }

  predicate First(rows: set<Row>, r: Row) {
    r in rows && forall s | s in rows && s != r :: Before(r, s)
  }

  lemma {:induction false} FirstExists(rows: set<Row>)
    requires Keyed(rows) && rows != {}
    ensures exists r :: First(rows, r)
  {
    var r :| r in rows;
    if rows == {r} {
      assert First(rows, r);
    } else {
      FirstExists(rows - {r});
      var f :| First(rows - {r}, f);
      var first := if Before(f, r) then f else r;
      forall s | s in rows && s != first ensures Before(first, s) {
        if s != r && s != f { assert Before(f, s); }
      }
      assert First(rows, first);
    }
  }

  lemma Prepend(rows: set<Row>, first: Row, rest: seq<Row>)
    requires First(rows, first) && Elements(rest) == rows - {first} && Ordered(rest)
    ensures Elements([first] + rest) == rows && Ordered([first] + rest)
  {
    var all := [first] + rest;
    assert forall i | 0 <= i < |rest| :: rest[i] in Elements(rest);
    assert forall r | r in rest :: r in Elements(rest);
    forall r | r in rows ensures r in all {
      if r != first { assert r in Elements(rest); }
    }
  }

  // A keyed set has exactly one ordered listing.
  ghost function Sorted(rows: set<Row>): (r: seq<Row>)
    requires Keyed(rows)
    ensures Elements(r) == rows && Ordered(r) && |r| == |rows|
  {
    if rows == {} then []
    else
      FirstExists(rows);
      var first :| First(rows, first);
      var rest := Sorted(rows - {first});
      Prepend(rows, first, rest);
      [first] + rest
  }

  lemma HeadIsFirst(a: seq<Row>)
    requires Ordered(a) && a != []
    ensures First(Elements(a), a[0])
  {}

  lemma FirstIsUnique(rows: set<Row>, r: Row, s: Row)
    requires First(rows, r) && First(rows, s)
    ensures r == s
  {}

  lemma NoElements(a: seq<Row>)
    ensures a == [] <==> Elements(a) == {}
  {
    if a != [] { assert a[0] in Elements(a); }
  }

  lemma {:induction false} OrderedListingIsUnique(a: seq<Row>, b: seq<Row>)
    requires Ordered(a) && Ordered(b) && Elements(a) == Elements(b)
    ensures a == b
  {
    NoElements(a);
    NoElements(b);
    if a != [] {
      HeadIsFirst(a);
      HeadIsFirst(b);
      FirstIsUnique(Elements(a), a[0], b[0]);
      TailElements(a);
      TailElements(b);
      OrderedListingIsUnique(a[1..], b[1..]);
    }
  }

  lemma TailElements(a: seq<Row>)
    requires Ordered(a) && a != []
    ensures Elements(a[1..]) == Elements(a) - {a[0]}
  {
    assert forall i | 1 <= i < |a| :: Before(a[0], a[i]);
    assert forall i | 0 <= i < |a| - 1 :: a[1..][i] == a[i + 1];
    forall r | r in Elements(a) - {a[0]} ensures r in Elements(a[1..]) {
      var i :| 0 <= i < |a| && a[i] == r;
      assert a[1..][i - 1] == r;
    }
  }

  // ---------------------------------------------------------------------------
  // The next item.

  predicate InLibrary(r: Row, profile: string) { r.profile == profile && r.status != Filtered }

  predicate EndsWithPdf(path: string) { |path| >= 4 && Lower(path[|path| - 4..]) == ".pdf" }

  predicate IsPdf(r: Row) {
    || (r.fileExt.Some? && Lower(r.fileExt.value) == "pdf")
    || (r.filePath.Some? && EndsWithPdf(r.filePath.value))
  }

  predicate Playable(r: Row, profile: string) { InLibrary(r, profile) && r.status == Downloaded && !IsPdf(r) }

  predicate Later(current: Row, r: Row) {
    r.lastSeenAt < current.lastSeenAt || (r.lastSeenAt == current.lastSeenAt && r.id < current.id)
  }

  function LaterItems(rows: set<Row>, profile: string, current: Row): set<Row> {
    set r | r in rows && Playable(r, profile) && Later(current, r)
  }

  // The first of the later playable items, or None for an unknown id or at the end.
  method NextLibraryDownload(rows: set<Row>, profile: string, id: nat) returns (next: Option<Row>)
    requires Keyed(rows)
    ensures (forall r | r in rows :: !(r.id == id && r.profile == profile)) ==> next == None
    ensures forall current | current in rows && current.id == id && current.profile == profile ::
      match next
      case None => LaterItems(rows, profile, current) == {}
      case Some(r) => First(LaterItems(rows, profile, current), r)
    ensures next.Some? ==>
      var r := next.value;
      && r in rows && r.profile == profile && r.status == Downloaded
      && !(r.fileExt.Some? && Lower(r.fileExt.value) == "pdf")
  {
    hide Playable;
    if current :| current in rows && current.id == id && current.profile == profile {
      var left := set r | r in rows && Playable(r, profile) && Later(current, r);
      assert left == LaterItems(rows, profile, current);
      if left == {} {
        return None;
      }
      var best :| best in left;
      ghost var all := left;
      left := left - {best};
      while left != {}
        invariant left <= all && best in all && best !in left
        invariant forall s | s in all && s !in left && s != best :: Before(best, s)
        decreases left
      {
        var r :| r in left;
        left := left - {r};
        if Before(r, best) { best := r; }
      }
      LaterItemsAre(rows, profile, current, best);
      return Some(best);
    }
    return None;
  }

  // What a later item is, and which of two comes first, on their fields.
  lemma LaterItemsAre(rows: set<Row>, profile: string, current: Row, r: Row)
    ensures r in LaterItems(rows, profile, current) <==>
      && r in rows && r.profile == profile && r.status == Downloaded
      && (r.lastSeenAt < current.lastSeenAt || (r.lastSeenAt == current.lastSeenAt && r.id < current.id))
      && !(r.fileExt.Some? && Lower(r.fileExt.value) == "pdf")
      && !(r.filePath.Some? && exists name, ext :: r.filePath.value == name + ext && |ext| == 4 && Lower(ext) == ".pdf")
  {
    if r.filePath.Some? {
      var path := r.filePath.value;
      if EndsWithPdf(path) {
        assert path == path[..|path| - 4] + path[|path| - 4..];
      }
      if name, ext :| path == name + ext && |ext| == 4 && Lower(ext) == ".pdf" {
        assert path[|path| - 4..] == ext;
      }
    }
  }

  // Following `next` from `current` until it is None.
  ghost function Walk(rows: set<Row>, profile: string, current: Row): seq<Row>
    requires Keyed(rows)
    decreases |LaterItems(rows, profile, current)|
  {
    var later := LaterItems(rows, profile, current);
    if later == {} then []
    else
      FirstExists(later);
      var next :| First(later, next);
      StepShrinks(rows, profile, current, next);
      [next] + Walk(rows, profile, next)
  }

  lemma StepShrinks(rows: set<Row>, profile: string, current: Row, next: Row)
    requires Keyed(rows) && First(LaterItems(rows, profile, current), next)
    ensures LaterItems(rows, profile, next) == LaterItems(rows, profile, current) - {next}
    ensures |LaterItems(rows, profile, next)| < |LaterItems(rows, profile, current)|
  {
    hide Playable;
    var a, b := LaterItems(rows, profile, next), LaterItems(rows, profile, current);
    assert a == b - {next};
  }

  // Main result: iterating from any item terminates and visits exactly the later playable items,
  // once each, in order, even with equal timestamps.
  lemma {:induction false} WalkVisitsLaterItemsOnce(rows: set<Row>, profile: string, current: Row)
    requires Keyed(rows)
    ensures Walk(rows, profile, current) == Sorted(LaterItems(rows, profile, current))
    decreases |LaterItems(rows, profile, current)|
  {
    hide LaterItems;
    var later := LaterItems(rows, profile, current);
    LaterIsKeyed(rows, profile, current);
    if later != {} {
      var w := Walk(rows, profile, current);
      var next := w[0];
      assert First(later, next) && w == [next] + Walk(rows, profile, next);
      StepShrinks(rows, profile, current, next);
      WalkVisitsLaterItemsOnce(rows, profile, next);
      SortedByFirst(later, next);
    }
  }

  lemma SortedByFirst(rows: set<Row>, first: Row)
    requires Keyed(rows) && First(rows, first)
    ensures Sorted(rows) == [first] + Sorted(rows - {first})
  {
    var rest := Sorted(rows - {first});
    Prepend(rows, first, rest);
    OrderedListingIsUnique([first] + rest, Sorted(rows));
  }

  lemma LaterIsKeyed(rows: set<Row>, profile: string, current: Row)
    requires Keyed(rows)
    ensures Keyed(LaterItems(rows, profile, current))
  {}

  // ---------------------------------------------------------------------------
  // Pages.

  const PageLimit := 100

  datatype Mode = All | Played | Favorites | Unplayed

  predicate OccursAt(text: string, part: string, i: nat) {
    i + |part| <= |text| && text[i..i + |part|] == part
  }

  predicate Contains(text: string, part: string) { exists i: nat | i <= |text| :: OccursAt(text, part, i) }

  predicate IContains(text: string, part: string) { Contains(Lower(text), Lower(part)) }

  predicate Matches(r: Row, profile: string, mode: Mode, search: string) {
    && InLibrary(r, profile)
    && (match mode
        case All => true
        case Unplayed => !r.played && r.status == Downloaded
        case Played => r.played && r.status == Downloaded
        case Favorites => r.favorite && r.status == Downloaded)
    && (Strip(search) != "" ==>
          (r.title.Some? && IContains(r.title.value, Strip(search))) || IContains(r.sourceName, Strip(search)))
  }

  // The filters on the fields: nothing FILTERED and nothing of another profile is ever listed; PLAYED and UNPLAYED
  // share out the downloaded items, FAVORITES are some of those, and a blank search finds everything.
  lemma FiltersAre(r: Row, profile: string, search: string)
    ensures Matches(r, profile, All, "") <==> r.profile == profile && r.status != Filtered
    ensures Matches(r, profile, All, search) ==> r.profile == profile && r.status != Filtered
    ensures Matches(r, profile, Played, search) <==>
      Matches(r, profile, All, search) && r.status == Downloaded && r.played
    ensures Matches(r, profile, Unplayed, search) <==>
      Matches(r, profile, All, search) && r.status == Downloaded && !Matches(r, profile, Played, search)
    ensures Matches(r, profile, Favorites, search) <==>
      Matches(r, profile, All, search) && r.status == Downloaded && r.favorite
    ensures AllSpace(search) ==> (Matches(r, profile, All, search) <==> Matches(r, profile, All, ""))
  {
    hide IContains;
  }

  // A search finds the items that have the words in their title or source, in whatever case.
  lemma SearchFinds(r: Row, profile: string, before: string, words: string, after: string)
    requires r.profile == profile && r.status != Filtered && Trimmed(words)
    requires r.title == Some(before + words + after) || r.sourceName == before + words + after
    ensures Matches(r, profile, All, words) && Matches(r, profile, All, Lower(words))
  {
    ContainsPart(before, words, after);
    LowerIsTrimmed(words);
    assert Strip(words) == words && Strip(Lower(words)) == Lower(words);
    FoundIf(r, profile, before + words + after, words);
    FoundIf(r, profile, before + words + after, Lower(words));
    hide *;
  }

  lemma FoundIf(r: Row, profile: string, text: string, words: string)
    requires InLibrary(r, profile) && (r.title == Some(text) || r.sourceName == text)
    requires Strip(words) == words && IContains(text, words)
    ensures Matches(r, profile, All, words)
  {
    hide Lower, Strip, IContains;
  }

  lemma ContainsPart(before: string, part: string, after: string)
    ensures IContains(before + part + after, part) && IContains(before + part + after, Lower(part))
  {
    LowerOfPart(before, part, after);
    LowerTwice(part);
    hide Lower;
    assert OccursAt(Lower(before + part + after), Lower(part), |before|);
  }

  lemma LowerOfPart(before: string, part: string, after: string)
    ensures Lower(before + part + after)[|before|..|before| + |part|] == Lower(part)
  {
    var text := before + part + after;
    assert forall i | 0 <= i < |part| :: text[|before| + i] == part[i];
  }

  ghost function Listing(rows: set<Row>, profile: string, mode: Mode, search: string): seq<Row>
    requires Keyed(rows)
  {
    Sorted(set r | r in rows && Matches(r, profile, mode, search))
  }

  function PageSize(requested: int): (size: int)
    ensures 1 <= size <= PageLimit
  {
    if requested < 1 then 1 else if requested > PageLimit then PageLimit else requested
  }

  function LastPage(total: nat, size: int): (last: int)
    requires size >= 1
    ensures last >= 1 && total <= last * size && (last > 1 ==> (last - 1) * size < total)
  {
    var pages := (total + size - 1) / size;
    assert total + size - 1 == size * pages + (total + size - 1) % size;
    assert (pages - 1) * size == size * pages - size;
    if pages < 1 then 1 else pages
  }

  function Clamp(page: int, total: nat, size: int): (p: int)
    requires size >= 1
    ensures 1 <= p <= LastPage(total, size)
    ensures 1 <= page <= LastPage(total, size) ==> p == page
  {
    var p := if page < 1 then 1 else page;
    if p > LastPage(total, size) then LastPage(total, size) else p
  }

  function PageOffset(page: int, size: int): int { (page - 1) * size }

  function PageOf(listing: seq<Row>, page: int, size: int): (rows: seq<Row>)
    requires size >= 1
  {
    var p := Clamp(page, |listing|, size);
    PageStart(|listing|, p, size);
    Slice(listing, PageOffset(p, size), size)
  }

  lemma PageStart(total: nat, p: int, size: int)
    requires size >= 1 && 1 <= p <= LastPage(total, size)
    ensures 0 <= (p - 1) * size <= total
  {
    assert (p - 1) * size >= 0;
    if p > 1 {
      var last := LastPage(total, size);
      assert (last - 1) * size == (p - 1) * size + (last - p) * size;
      assert (last - p) * size >= 0;
    }
  }

  // `listing` holds, in order, the rows that come before all of the rest.
  ghost predicate Picked(rows: set<Row>, listing: seq<Row>, rest: set<Row>) {
    && rest <= rows && Elements(listing) == rows - rest && Ordered(listing)
    && forall i, r | 0 <= i < |listing| && r in rest :: Before(listing[i], r)
  }

  lemma PickFirst(rows: set<Row>, listing: seq<Row>, rest: set<Row>, first: Row)
    requires Picked(rows, listing, rest) && First(rest, first)
    ensures Picked(rows, listing + [first], rest - {first})
  {
    var longer := listing + [first];
    assert forall r :: r in Elements(longer) <==> r in Elements(listing) || r == first;
  }

  // The answer to an ordered query.
  method InOrder(rows: set<Row>) returns (listing: seq<Row>)
    requires Keyed(rows)
    ensures listing == Sorted(rows)
  {
    listing := [];
    var rest := rows;
    while rest != {}
      invariant Keyed(rest) && Picked(rows, listing, rest)
      decreases rest
    {
      FirstExists(rest);
      var first :| first in rest && First(rest, first);
      PickFirst(rows, listing, rest, first);
      hide Picked, Before;
      listing := listing + [first];
      rest := rest - {first};
    }
    OrderedListingIsUnique(listing, Sorted(rows));
  }

  // The slice of the ordered, filtered list for a page, with the page and its size clamped.
  method PaginatedDownloads(rows: set<Row>, profile: string, mode: Mode, search: string, page: int, pageSize: int)
    returns (items: seq<Row>, total: nat)
    requires Keyed(rows)
    ensures
      var listing := Listing(rows, profile, mode, search);
      && total == |listing| && items == PageOf(listing, page, PageSize(pageSize))
      && (forall i, j | 0 <= i < j < total ::
            || listing[i].lastSeenAt > listing[j].lastSeenAt
            || (listing[i].lastSeenAt == listing[j].lastSeenAt && listing[i].id > listing[j].id))
    ensures PageSize(pageSize) == if pageSize < 1 then 1 else if pageSize > 100 then 100 else pageSize
    ensures |items| <= PageSize(pageSize) <= PageLimit
  {
    var listing := InOrder(set r | r in rows && Matches(r, profile, mode, search));
    assert listing == Listing(rows, profile, mode, search);
    hide Listing, Keyed, Matches;
    total := |listing|;
    items := Page(listing, page, pageSize);
  }

  method Page(listing: seq<Row>, page: int, pageSize: int) returns (items: seq<Row>)
    ensures items == PageOf(listing, page, PageSize(pageSize)) && |items| <= PageSize(pageSize)
  {
    var asked, total := page, |listing|;
    var page := if page < 1 then 1 else page;
    var size := if pageSize > PageLimit then PageLimit else pageSize;
    if size < 1 { size := 1; }
    var last := (total + size - 1) / size;
    if last < 1 { last := 1; }
    assert last == LastPage(total, size) && size == PageSize(pageSize);
    hide LastPage, PageSize;
    if page > last { page := last; }
    assert page == Clamp(asked, total, size);
    hide Clamp;
    var start := (page - 1) * size;
    PageStart(total, page, size);
    assert start == PageOffset(page, size);
    hide PageOffset;
    items := Slice(listing, start, size);
  }

  function Slice(listing: seq<Row>, start: int, size: int): seq<Row>
    requires 0 <= start <= |listing| && size >= 1
  {
    if start + size <= |listing| then listing[start..start + size] else listing[start..]
  }

  function PagesUpTo(listing: seq<Row>, n: nat, size: int): seq<Row>
    requires size >= 1
  {
    if n == 0 then [] else PagesUpTo(listing, n - 1, size) + PageOf(listing, n, size)
  }

  function FirstRows(listing: seq<Row>, n: int): seq<Row> {
    if 0 <= n <= |listing| then listing[..n] else listing
  }

  lemma NextPage(listing: seq<Row>, n: int, size: int)
    requires size >= 1 && 1 <= n <= LastPage(|listing|, size)
    ensures FirstRows(listing, PageOffset(n, size)) + PageOf(listing, n, size) ==
        FirstRows(listing, PageOffset(n + 1, size))
  {
    var start := PageOffset(n, size);
    PageStart(|listing|, n, size);
    assert PageOffset(n + 1, size) == start + size;
    hide LastPage, PageOffset;
    CutTwice(listing, start, size);
  }

  lemma CutTwice(listing: seq<Row>, start: nat, size: nat)
    requires start <= |listing|
    ensures start + size <= |listing| ==> listing[..start] + listing[start..start + size] == listing[..start + size]
    ensures listing[..start] + listing[start..] == listing
  {}

  lemma {:induction false} PagesArePrefix(listing: seq<Row>, n: nat, size: int)
    requires size >= 1 && n <= LastPage(|listing|, size)
    ensures PagesUpTo(listing, n, size) == FirstRows(listing, PageOffset(n + 1, size))
  {
    hide LastPage, FirstRows, PageOf;
    if n > 0 {
      PagesArePrefix(listing, n - 1, size);
      NextPage(listing, n, size);
    } else {
      NoRows(listing, PageOffset(1, size));
    }
  }

  lemma NoRows(listing: seq<Row>, n: int)
    ensures n == 0 ==> FirstRows(listing, n) == []
  {}

  // Main result: the pages 1 to the last one concatenate to the whole ordered list, and every page
  // number outside that range shows the nearest page.
  lemma PagesCoverTheListing(listing: seq<Row>, size: int, page: int)
    requires size >= 1
    ensures PagesUpTo(listing, LastPage(|listing|, size), size) == listing
    ensures page > LastPage(|listing|, size) ==>
        PageOf(listing, page, size) == PageOf(listing, LastPage(|listing|, size), size)
    ensures page < 1 ==> PageOf(listing, page, size) == PageOf(listing, 1, size)
  {
    var last := LastPage(|listing|, size);
    PagesArePrefix(listing, last, size);
    assert PageOffset(last + 1, size) >= |listing|;
    hide PagesUpTo, PageOffset;
    assert listing[..|listing|] == listing;
  }
}
