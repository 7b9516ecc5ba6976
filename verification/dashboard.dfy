/**
 * The owner dashboard: the cached list of the owner's listings, how a fetch
 * replaces it, deleting a listing by id followed by a fetch, and the
 * thumbnail a listing card shows.
 */
module Dashboard {
  import opened Wrappers
  import opened Supabase
  import opened Remote
  import opened Uploads
  import opened AddListing

  /**
   * `a` comes no later than `b` in `order('created_at', { ascending: false })`:
   * newer first, and a row without a creation time ranks before every dated
   * row, as descending order places nulls first.
   */
  predicate NewerOrSame(a: RoomListing, b: RoomListing) {
    match a.created_at
    case None => true
    case Some(x) => b.created_at.Some? && x >= b.created_at.value
  }

  predicate NewestFirst(s: seq<RoomListing>) {
    forall i, j :: 0 <= i < j < |s| ==> NewerOrSame(s[i], s[j])
  }

  /** The rows of `s` that satisfy `keep`. */
  function Filter<T(!new)>(s: seq<T>, keep: T -> bool): (r: seq<T>)
    ensures forall x :: multiset(r)[x] == if keep(x) then multiset(s)[x] else 0
    ensures forall i :: 0 <= i < |r| ==> keep(r[i]) && r[i] in s
    decreases |s|
  {
    if |s| == 0 then []
    else
      assert s == [s[0]] + s[1..];
      (if keep(s[0]) then [s[0]] else []) + Filter(s[1..], keep)
  }

  /** Places one row into a newest-first list. */
  function InsertByDate(x: RoomListing, s: seq<RoomListing>): (r: seq<RoomListing>)
    requires NewestFirst(s)
    ensures NewestFirst(r)
    ensures multiset(r) == multiset(s) + multiset{x}
    decreases |s|
  {
    if |s| == 0 then [x]
    else if NewerOrSame(x, s[0]) then [x] + s
    else
      var tail := InsertByDate(x, s[1..]);
      assert s == [s[0]] + s[1..];
      HeadStaysFirst(x, s, tail);
      [s[0]] + tail
  }

  /** A head newer than the rest of the list and than the inserted row stays in front. */
  lemma HeadStaysFirst(x: RoomListing, s: seq<RoomListing>, tail: seq<RoomListing>)
    requires |s| > 0 && NewestFirst(s) && !NewerOrSame(x, s[0])
    requires NewestFirst(tail) && multiset(tail) == multiset(s[1..]) + multiset{x}
    ensures NewestFirst([s[0]] + tail)
  {
    var r := [s[0]] + tail;
    forall i, j | 0 <= i < j < |r| ensures NewerOrSame(r[i], r[j]) {
      if i > 0 {
        assert r[i] == tail[i - 1] && r[j] == tail[j - 1];
      } else {
        var y := tail[j - 1];
        assert y in multiset(tail);
        if y == x {
        } else {
          assert y in multiset(s[1..]);
          var k :| 0 <= k < |s[1..]| && s[1..][k] == y;
          assert s[k + 1] == y;
        }
      }
    }
  }

  /** The order the table returns rows in for `order('created_at', { ascending: false })`. */
  function SortNewestFirst(s: seq<RoomListing>): (r: seq<RoomListing>)
    ensures NewestFirst(r)
    ensures multiset(r) == multiset(s)
    decreases |s|
  {
    if |s| == 0 then []
    else
      assert s == [s[0]] + s[1..];
      InsertByDate(s[0], SortNewestFirst(s[1..]))
  }

  /** What the table returns for `select('*').eq('owner_id', owner).order('created_at', desc)`. */
  function SelectOwned(rows: Table, owner: OwnerId): (r: seq<RoomListing>)
    ensures NewestFirst(r)
    ensures forall x :: multiset(r)[x] == if x.owner_id == owner then multiset(rows)[x] else 0
  {
    SortNewestFirst(Filter(rows, (x: RoomListing) => x.owner_id == owner))
  }

  /** How the table answers the listing query. */
  datatype QueryReply =
    | Answered              // the rows the query selects
    | AnsweredNull          // no error, but `data` is null
    | QueryFailed(message: string)

  datatype Fetch = Fetch(cache: seq<RoomListing>, calls: seq<Call>)

  /**
   * `fetchListings`: no user means no query and an unchanged list; an answer
   * replaces the list wholesale (null becomes the empty list); an error
   * leaves it as it was.
   */
  function FetchListings(session: Session, rows: Table, cache: seq<RoomListing>, reply: QueryReply): (r: Fetch)
    ensures session.None? ==> r.cache == cache && r.calls == [GetUser]
    ensures session.Some? ==> r.calls == [GetUser, SelectByOwner(session.value)]
    ensures session.Some? && reply.Answered? ==>
      && NewestFirst(r.cache)
      && forall x :: multiset(r.cache)[x] == if x.owner_id == session.value then multiset(rows)[x] else 0
    ensures session.Some? && reply.AnsweredNull? ==> r.cache == []
    ensures reply.QueryFailed? ==> r.cache == cache
  {
    match session
    case None => Fetch(cache, [GetUser])
    case Some(owner) =>
      var calls := [GetUser, SelectByOwner(owner)];
      match reply
      case Answered => Fetch(SelectOwned(rows, owner), calls)
      case AnsweredNull => Fetch([], calls)
      case QueryFailed(_) => Fetch(cache, calls)
  }

  /** A fetch for an owner with no rows answers with the empty list, not an error. */
  lemma FetchWithNoRowsIsEmpty(owner: OwnerId, rows: Table, cache: seq<RoomListing>)
    requires forall i :: 0 <= i < |rows| ==> rows[i].owner_id != owner
    ensures FetchListings(Some(owner), rows, cache, Answered).cache == []
  {
  }

  /** How the table answers `delete().eq('id', id)`. */
  datatype DeleteReply = Deleted | DeleteFailed(message: string)

  datatype Removal = Removal(rows: Table, cache: seq<RoomListing>, calls: seq<Call>)

  /** The table after deleting by id: every row with that id goes, whoever owns it. */
  function DeleteRows(rows: Table, id: string): (left: Table)
    ensures forall x :: multiset(left)[x] == if x.id == Some(id) then 0 else multiset(rows)[x]
  {
    Filter(rows, (x: RoomListing) => x.id != Some(id))
  }

  /**
   * `handleDelete(id)`: nothing happens unless the user confirms; a
   * successful delete is followed by a fetch; a failed one leaves the list
   * unchanged. The delete itself carries no owner condition.
   */
  function HandleDelete(confirmed: bool, id: string, session: Session, rows: Table, cache: seq<RoomListing>,
                        reply: DeleteReply, refetch: QueryReply): (r: Removal)
    ensures !confirmed ==> r == Removal(rows, cache, [])
    ensures confirmed ==> |r.calls| >= 1 && r.calls[0] == DeleteById(id)
    ensures confirmed && reply.DeleteFailed? ==> r == Removal(rows, cache, [DeleteById(id)])
    ensures confirmed && reply.Deleted? ==>
      && (forall x :: multiset(r.rows)[x] == if x.id == Some(id) then 0 else multiset(rows)[x])
      && r.calls[1..] == FetchListings(session, r.rows, cache, refetch).calls
      && r.cache == FetchListings(session, r.rows, cache, refetch).cache
  {
    if !confirmed then Removal(rows, cache, [])
    else match reply
      case DeleteFailed(_) => Removal(rows, cache, [DeleteById(id)])
      case Deleted =>
        var left := DeleteRows(rows, id);
        var f := FetchListings(session, left, cache, refetch);
        Removal(left, f.cache, [DeleteById(id)] + f.calls)
  }

  /** The delete removes a matching row even when it belongs to someone other than the session's user. */
  lemma DeleteAppliesNoOwnerFilter(id: string, session: Session, rows: Table, cache: seq<RoomListing>,
                                   refetch: QueryReply, i: nat)
    requires i < |rows| && rows[i].id == Some(id)
    ensures rows[i] !in HandleDelete(true, id, session, rows, cache, Deleted, refetch).rows
  {
    var r := HandleDelete(true, id, session, rows, cache, Deleted, refetch).rows;
    assert multiset(r)[rows[i]] == 0;
  }

  /** After a confirmed delete and an answered refetch, the list shows no row with that id. */
  lemma DeletedListingLeavesCache(id: string, owner: OwnerId, rows: Table, cache: seq<RoomListing>)
    ensures var r := HandleDelete(true, id, Some(owner), rows, cache, Deleted, Answered);
      forall k :: 0 <= k < |r.cache| ==> r.cache[k].id != Some(id) && r.cache[k].owner_id == owner
  {
    var r := HandleDelete(true, id, Some(owner), rows, cache, Deleted, Answered);
    forall k | 0 <= k < |r.cache|
      ensures r.cache[k].id != Some(id) && r.cache[k].owner_id == owner
    {
      assert multiset(r.cache)[r.cache[k]] > 0;
      assert multiset(r.rows)[r.cache[k]] > 0;
    }
  }

  /** The image a listing card shows: the first of the listing's images, if it has any. */
  function Thumbnail(listing: RoomListing): (shown: Option<string>)
    ensures shown.Some? <==> |listing.images| > 0
    ensures shown.Some? ==> shown.value in listing.images && shown.value == listing.images[0]
  {
    if |listing.images| > 0 then Some(listing.images[0]) else None
  }

  /**
   * A listing added from the page is shown with the public URL of the first
   * file that was pending when it was submitted, and with no image when no
   * file was pending.
   */
  lemma AddedListingThumbnail(d: Draft, owner: OwnerId, blobs: BlobStore, rows: Table,
                              attempts: seq<Attempt>, reply: InsertReply)
    requires |attempts| == |d.files|
    requires Submit(d, Some(owner), blobs, rows, attempts, reply).outcome.Added?
    ensures var row := Submit(d, Some(owner), blobs, rows, attempts, reply).outcome.row;
      && (|d.files| == 0 ==> Thumbnail(row).None?)
      && (|d.files| > 0 ==> Thumbnail(row) == Some(PublicUrl(ObjectNames.ObjectName(
            owner, attempts[0].now, attempts[0].token, d.files[0].name))))
  {
    if |d.files| > 0 {
      NameAt(owner, d.files, attempts, 0);
    }
  }
}
