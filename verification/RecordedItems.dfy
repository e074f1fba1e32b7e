/** Which episodes count as already recorded: rows are looked up by source and by item number, address or
    title, whatever their status. */
module RecordedItems {
  import opened Text

  const MAX_UID: nat := 255

  datatype Source = Source(profile: string, sourceType: string, name: string)

  // What the episode check knows of an item.
  datatype Item = Item(uid: string, url: string, title: string)

  // What the download adds: the address used, the site's own data, the name found for an unnamed source.
  datatype Info = Info(downloadUrl: string, id: string, webpageUrl: string, title: string, stem: string,
      resolvedName: string)

  datatype Status = Downloaded | Filtered | Missing | RetentionDeleted

  datatype Row = Row(profile: string, sourceType: string, sourceName: string, uid: string, url: string, title: string,
                     status: Status)

  predicate OfSource(r: Row, source: Source) {
    r.profile == source.profile && r.sourceType == source.sourceType && r.sourceName == source.name
  }

  predicate EpisodeWasDownloaded(rows: seq<Row>, source: Source, item: Item) {
    if item.uid != "" && exists r :: r in rows && OfSource(r, source) && r.uid == item.uid then true
    else if item.url != "" && exists r :: r in rows && OfSource(r, source) && r.url == item.url then true
    else item.title != "" && exists r :: r in rows && OfSource(r, source) && r.title == item.title
  }

  function Or(first: string, second: string): string { if first != "" then first else second }

  function ParsedType(text: string): string {
    if Lower(Strip(text)) == "podcast" then "podcast" else "youtube"
  }

  function StoredName(source: Source, info: Info): string {
    var name := Strip(source.name);
    var found := if name == "" && ParsedType(source.sourceType) == "youtube" then info.resolvedName else name;
    Or(found, Strip(Or(source.sourceType, "GetOffline")))
  }

  function Truncated(s: string): string { if |s| <= MAX_UID then s else s[..MAX_UID] }

  // The row a finished or filtered download of the item gets.
  function RowOf(source: Source, item: Item, info: Info, status: Status): Row {
    Row(source.profile, ParsedType(source.sourceType), StoredName(source, info),
        Truncated(Or(Or(item.uid, info.id), info.downloadUrl)),
        Or(Or(item.url, info.webpageUrl), info.downloadUrl),
        Or(Or(item.title, info.title), info.stem),
        status)
  }

  predicate SameKey(a: Row, b: Row) {
    a.profile == b.profile && a.sourceType == b.sourceType && a.sourceName == b.sourceName && a.uid == b.uid
  }

  // The first row with the key is overwritten; without one a row is added.
  function UpdateOrCreate(rows: seq<Row>, row: Row): (r: seq<Row>)
    ensures row in r
  {
    if rows == [] then [row]
    else if SameKey(rows[0], row) then [row] + rows[1..]
    else [rows[0]] + UpdateOrCreate(rows[1..], row)
  }

  lemma {:induction false} UpdateTouchesOneKey(rows: seq<Row>, row: Row)
    ensures forall r | r in UpdateOrCreate(rows, row) :: r == row || r in rows
    ensures forall r | r in rows :: SameKey(r, row) || r in UpdateOrCreate(rows, row)
  {
    if rows != [] && !SameKey(rows[0], row) {
      UpdateTouchesOneKey(rows[1..], row);
      assert rows == [rows[0]] + rows[1..];
    }
  }

  // The row takes the place of the first one with its key, or is added behind rows that all have other keys.
  lemma {:induction false} UpdateReplacesOrAdds(rows: seq<Row>, row: Row, i: nat)
    requires i <= |rows| && (forall j | 0 <= j < i :: !SameKey(rows[j], row)) && (i < |rows| ==> SameKey(rows[i], row))
    ensures UpdateOrCreate(rows, row) == rows[..i] + [row] + if i < |rows| then rows[i + 1..] else []
  {
    hide SameKey;
    if i > 0 {
      UpdateReplacesOrAdds(rows[1..], row, i - 1);
      assert rows[..i] == [rows[0]] + rows[1..][..i - 1];
    }
  }

  // A source with a clean name and a canonical type.
  predicate Recognised(source: Source) {
    source.name != "" && Trimmed(source.name) && source.sourceType in {"youtube", "podcast"}
  }

  // The row keeps a source's name if and only if it is clean; the resolver returns trimmed names.
  lemma NameIsKeptIff(source: Source, info: Info)
    requires Trimmed(info.resolvedName) && source.sourceType in {"youtube", "podcast"}
    ensures StoredName(source, info) == source.name <==> source.name != "" && Trimmed(source.name)
  {
    hide Strip, Lower, ParsedType;
    PlainTextStays(source.sourceType);
  }

  lemma ParsedTypeIsKept(text: string)
    ensures ParsedType(text) == text <==> text in {"youtube", "podcast"}
  {
    hide Strip, Lower, Trimmed;
    PlainTextStays("youtube");
    PlainTextStays("podcast");
    assert "youtube"[0] != "podcast"[0];
  }

  // The row is found under the source again if and only if the source is recognised.
  lemma RowIsOfSourceIff(source: Source, item: Item, info: Info, status: Status)
    requires Trimmed(info.resolvedName)
    ensures OfSource(RowOf(source, item, info, status), source) <==> Recognised(source)
  {
    hide StoredName, ParsedType, Trimmed, Truncated, Or;
    ParsedTypeIsKept(source.sourceType);
    if source.sourceType in {"youtube", "podcast"} { NameIsKeptIff(source, info); }
  }

  predicate Names(r: Row, source: Source, item: Item) {
    && OfSource(r, source)
    && ((item.uid != "" && r.uid == item.uid) || (item.url != "" && r.url == item.url)
        || (item.title != "" && r.title == item.title))
  }

  lemma SeenIff(rows: seq<Row>, source: Source, item: Item)
    ensures EpisodeWasDownloaded(rows, source, item) <==> exists r :: r in rows && Names(r, source, item)
  {
    hide OfSource;
    if r :| r in rows && Names(r, source, item) { assert OfSource(r, source); }
  }

  lemma RowNamesIff(source: Source, item: Item, info: Info, status: Status)
    requires |item.uid| <= 255 && Trimmed(info.resolvedName)
    ensures Names(RowOf(source, item, info, status), source, item) <==>
            Recognised(source) && (item.uid != "" || item.url != "" || item.title != "")
  {
    RowIsOfSourceIff(source, item, info, status);
    hide OfSource, Recognised, StoredName, ParsedType, Trimmed;
  }

  // A type counts as it is read, in any spelling.
  lemma TypeInAnySpelling(text: string)
    ensures ParsedType(text) == ParsedType(Lower(Strip(text)))
  {
    StripThenLower(text);
    hide Lower, Strip;
  }

  // A name is stored stripped. A source without one gets the name its site gave, if it is no podcast; otherwise its
  // type, or "GetOffline" if it has none either.
  lemma StoredNameIs(source: Source, info: Info)
    ensures
      var name := StoredName(source, info);
      && (!AllSpace(source.name) ==> name == Strip(source.name))
      && (AllSpace(source.name) ==>
            if ParsedType(source.sourceType) != "podcast" && info.resolvedName != "" then name == info.resolvedName
            else if source.sourceType != "" then name == Strip(source.sourceType) else name == "GetOffline")
  {
    hide Strip, Lower, ParsedType, Trimmed, AllSpace;
    TypeIsOneOfTwo(source.sourceType);
    DefaultNameStays();
  }

  lemma TypeIsOneOfTwo(text: string)
    ensures ParsedType(text) == "podcast" <==> ParsedType(text) != "youtube"
  {
    assert "youtube"[0] != "podcast"[0];
  }

  lemma DefaultNameStays()
    ensures Strip("GetOffline") == "GetOffline"
  {
    assert Trimmed("GetOffline");
  }

  // Main result: a new item that is recorded, as FILTERED or otherwise, is taken for recorded by the next check
  // if and only if its source is recognised and it has a number, an address or a title.
  lemma RecordedItemIsSeenIff(rows: seq<Row>, source: Source, item: Item, info: Info, status: Status)
    requires !EpisodeWasDownloaded(rows, source, item) && |item.uid| <= 255 && Trimmed(info.resolvedName)
    ensures EpisodeWasDownloaded(UpdateOrCreate(rows, RowOf(source, item, info, status)), source, item) <==>
            Recognised(source) && (item.uid != "" || item.url != "" || item.title != "")
  {
    var row := RowOf(source, item, info, status);
    RowNamesIff(source, item, info, status);
    UpdateTouchesOneKey(rows, row);
    SeenIff(rows, source, item);
    SeenIff(UpdateOrCreate(rows, row), source, item);
    hide EpisodeWasDownloaded, Names, RowOf, UpdateOrCreate, Recognised, Trimmed, SameKey;
  }

  function Recorded(rows: seq<Row>, later: seq<Row>): seq<Row>
    decreases |later|
  {
    if later == [] then rows else Recorded(UpdateOrCreate(rows, later[0]), later[1..])
  }

  // An item with a number stays recorded, whatever is recorded later.
  lemma {:induction false} SeenForGood(rows: seq<Row>, later: seq<Row>, source: Source, item: Item)
    requires item.uid != "" && exists r :: r in rows && OfSource(r, source) && r.uid == item.uid
    ensures EpisodeWasDownloaded(Recorded(rows, later), source, item)
    decreases |later|
  {
    if later != [] {
      UpdateTouchesOneKey(rows, later[0]);
      var r :| r in rows && OfSource(r, source) && r.uid == item.uid;
      assert SameKey(r, later[0]) ==> OfSource(later[0], source) && later[0].uid == item.uid;
      SeenForGood(UpdateOrCreate(rows, later[0]), later[1..], source, item);
    }
  }

  // The row keeps what the check knew of the item; where it knew nothing, what the site or the download gave.
  lemma RowTakesTheFirst(source: Source, item: Item, info: Info, status: Status)
    ensures
      var row := RowOf(source, item, info, status);
      && row.profile == source.profile && row.status == status
      && (item.url != "" ==> row.url == item.url)
      && (item.url == "" ==> row.url == if info.webpageUrl != "" then info.webpageUrl else info.downloadUrl)
      && (item.title != "" ==> row.title == item.title)
      && (item.title == "" ==> row.title == if info.title != "" then info.title else info.stem)
      && (item.uid == "" && info.id == "" && |info.downloadUrl| <= 255 ==> row.uid == info.downloadUrl)
      && |row.uid| <= 255
  {
    hide StoredName, ParsedType;
  }

  // An item that had no number is found again by the one its site gave it.
  lemma FoundByTheSitesNumber(rows: seq<Row>, source: Source, item: Item, info: Info, status: Status, later: Item)
    requires Recognised(source) && Trimmed(info.resolvedName)
    requires item.uid == "" && info.id != "" && |info.id| <= 255 && later.uid == info.id
    ensures EpisodeWasDownloaded(UpdateOrCreate(rows, RowOf(source, item, info, status)), source, later)
  {
    var row := RowOf(source, item, info, status);
    RowIsOfSourceIff(source, item, info, status);
    assert row in UpdateOrCreate(rows, row) && row.uid == later.uid;
    hide UpdateOrCreate, StoredName, ParsedType, Trimmed, Recognised;
  }
}
