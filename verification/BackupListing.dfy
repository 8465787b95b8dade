/** Listing verified backups: the repository's pages, the complete list, and the pages shown to the user. */
module BackupListing {
  import opened Wrappers

  type BackupId = string

  datatype ListError = InvalidLimit | UnknownCursor | TooManyBackups | DamagedRecord

  /** Largest page the repository and the application give out, and the count at which listing gives up. */
  const PAGE: nat := 100
  const MAX_BACKUPS: nat := 10_000

  predicate Distinct(records: seq<BackupId>) {
    forall i, j :: 0 <= i < j < |records| ==> records[i] != records[j]
  }

  /** The index of the first record with this id, or the length. */
  function Position(records: seq<BackupId>, id: BackupId): (k: nat)
    ensures k <= |records|
    ensures k < |records| ==> records[k] == id
    ensures k == |records| <==> id !in records
  {
    if records == [] then 0 else if records[0] == id then 0 else 1 + Position(records[1..], id)
  }

  /** The first record after the cursor. */
  function StartOf(records: seq<BackupId>, cursor: Option<BackupId>): (start: Result<nat, ListError>)
    ensures start.Ok? ==> start.value <= |records|
  {
    if cursor.None? then Ok(0)
    else if Position(records, cursor.value) == |records| then Err(UnknownCursor)
    else Ok(Position(records, cursor.value) + 1)
  }

  function Slice(records: seq<BackupId>, start: nat, limit: nat): seq<BackupId>
    requires start <= |records|
  {
    records[start..if start + limit < |records| then start + limit else |records|]
  }

  /** `list_verified` over a repository that does not change. */
  function ListVerified(records: seq<BackupId>, cursor: Option<BackupId>, limit: nat): Result<seq<BackupId>,
                        ListError> {
    if limit == 0 || limit > PAGE then Err(InvalidLimit)
    else
      match StartOf(records, cursor)
      case Err(e) => Err(e)
      case Ok(start) => Ok(Slice(records, start, limit))
  }

  /** The cursor that points after the first `k` records. */
  predicate PointsAfter(records: seq<BackupId>, cursor: Option<BackupId>, k: nat) {
    k <= |records| && cursor == if k == 0 then None else Some(records[k - 1])
  }

  lemma StartAfter(records: seq<BackupId>, cursor: Option<BackupId>, k: nat)
    requires Distinct(records) && PointsAfter(records, cursor, k)
    ensures StartOf(records, cursor) == Ok(k)
  {
  }

  /** The complete list comes back, in order, exactly when it is shorter than the cap. */
  method ListAllVerified(records: seq<BackupId>) returns (result: Result<seq<BackupId>, ListError>)
    requires Distinct(records)
    ensures result.Ok? <==> |records| < MAX_BACKUPS
    ensures result.Ok? ==> result.value == records
    ensures result.Err? ==> result.error == TooManyBackups
  {
    var listed: seq<BackupId> := [];
    var cursor: Option<BackupId> := None;
    while true
      invariant |listed| <= |records| && listed == records[..|listed|]
      invariant |listed| % PAGE == 0 && |listed| < MAX_BACKUPS
      invariant PointsAfter(records, cursor, |listed|)
      decreases |records| - |listed|
    {
      StartAfter(records, cursor, |listed|);
      var page := ListVerified(records, cursor, PAGE);
      if page.Err? {
        return page;
      }
      if page.value != [] {
        cursor := Some(page.value[|page.value| - 1]);
      } else {
        cursor := None;
      }
      listed := listed + page.value;
      if |page.value| < PAGE {
        return Ok(listed);
      }
      if |listed| >= MAX_BACKUPS {
        return Err(TooManyBackups);
      }
    }
  }

  datatype Page = Page(backups: seq<BackupId>, total: nat, next: Option<BackupId>)

  /** One page of a complete list. */
  function PageOf(records: seq<BackupId>, cursor: Option<BackupId>, limit: nat): Result<Page, ListError> {
    match StartOf(records, cursor)
    case Err(e) => Err(e)
    case Ok(start) =>
      var page := Slice(records, start, limit);
      Ok(Page(page, |records|, if start + limit < |records| && page != [] then Some(page[|page| - 1]) else None))
  }

  predicate AllSound(records: seq<BackupId>, sound: BackupId -> bool) {
    forall id <- records :: sound(id)
  }

  method CheckRecords(page: seq<BackupId>, sound: BackupId -> bool) returns (ok: bool)
    ensures ok <==> AllSound(page, sound)
  {
    var i := 0;
    while i < |page|
      invariant 0 <= i <= |page| && AllSound(page[..i], sound)
    {
      assert page[..i + 1] == page[..i] + [page[i]] && page[i] in page;
      if !sound(page[i]) {
        return false;
      }
      i := i + 1;
    }
    assert page[..i] == page;
    return true;
  }

  /** The page of a complete list after the cursor. */
  method CutPage(listed: seq<BackupId>, cursor: Option<BackupId>, limit: nat) returns (result: Result<Page, ListError>)
    ensures result == PageOf(listed, cursor, limit)
    ensures result == Err(UnknownCursor) <==> cursor.Some? && cursor.value !in listed
    ensures result.Err? ==> result.error == UnknownCursor
    ensures result.Ok? ==> result.value.total == |listed| && |result.value.backups| <= limit
    ensures result.Ok? && result.value.next.Some? ==>
              result.value.backups != [] && result.value.next.value == result.value.backups[|result.value.backups| - 1]
  {
    var start := 0;
    if cursor.Some? {
      var position := Position(listed, cursor.value);
      if position == |listed| {
        return Err(UnknownCursor);
      }
      start := position + 1;
    }
    var end := if start + limit < |listed| then start + limit else |listed|;
    var page := listed[start..end];
    var next: Option<BackupId> := None;
    if end < |listed| && page != [] {
      next := Some(page[|page| - 1]);
    }
    return Ok(Page(page, |listed|, next));
  }

  /**
   `handle_list_backups`: checks the request, lists everything anew, cuts the page out and
   validates its records; `sound` are the records that pass.
   */
  method ListBackups(records: seq<BackupId>, sound: BackupId -> bool, cursor: Option<BackupId>, limit: nat)
    returns (result: Result<Page, ListError>)
    requires Distinct(records)
    ensures result == Err(InvalidLimit) <==> limit == 0 || limit > PAGE
    ensures 1 <= limit <= PAGE && |records| >= MAX_BACKUPS ==> result == Err(TooManyBackups)
    ensures 1 <= limit <= PAGE && |records| < MAX_BACKUPS ==>
              (result == Err(UnknownCursor) <==> cursor.Some? && cursor.value !in records)
    ensures result.Ok? ==> result.value.total == |records| && |result.value.backups| <= limit
    ensures result.Ok? && result.value.next.Some? ==>
              result.value.backups != [] && result.value.next.value == result.value.backups[|result.value.backups| - 1]
    ensures 1 <= limit <= PAGE && |records| < MAX_BACKUPS ==>
              var page := PageOf(records, cursor, limit);
              result == if page.Err? || AllSound(page.value.backups, sound) then page else Err(DamagedRecord)
  {
    if limit == 0 || limit > PAGE {
      return Err(InvalidLimit);
    }
    var all := ListAllVerified(records);
    if all.Err? {
      return Err(all.error);
    }
    var cut := CutPage(all.value, cursor, limit);
    if cut.Err? {
      return cut;
    }
    var intact := CheckRecords(cut.value.backups, sound);
    if !intact {
      return Err(DamagedRecord);
    }
    return cut;
  }

  /** The page after the first `k` records, and where its cursor points. */
  lemma NextPage(records: seq<BackupId>, cursor: Option<BackupId>, k: nat, limit: nat)
    requires Distinct(records) && PointsAfter(records, cursor, k) && limit >= 1
    ensures var page := PageOf(records, cursor, limit);
            && page.Ok? && page.value.backups == Slice(records, k, limit)
            && records[..k] + page.value.backups == records[..k + |page.value.backups|]
            && (page.value.next.None? ==> k + |page.value.backups| == |records|)
            && (page.value.next.Some? ==>
                  |page.value.backups| == limit && PointsAfter(records, page.value.next, k + limit))
  {
    StartAfter(records, cursor, k);
  }

  /** `n` records fill a number of pages exactly. */
  predicate WholePages(n: nat, limit: nat)
    requires limit >= 1
  {
    n == 0 || (n >= limit && WholePages(n - limit, limit))
  }

  /** A page and the records before it are sound together or not at all. */
  lemma SoundTogether(a: seq<BackupId>, b: seq<BackupId>, sound: BackupId -> bool)
    ensures AllSound(a + b, sound) <==> AllSound(a, sound) && AllSound(b, sound)
  {
  }

  /**
   Following the cursors from the start visits every backup once, in order, if and only if
   the limit is in range, there are not too many backups to list, and every record is
   sound.  A walk that fails shows a prefix: nothing for the first two reasons, and for a
   damaged record the sound pages before the first damaged one.
   */
  method FollowPages(records: seq<BackupId>, sound: BackupId -> bool, limit: nat)
    returns (visited: seq<BackupId>, failed: bool)
    requires Distinct(records)
    ensures failed <==> limit == 0 || limit > PAGE || |records| >= MAX_BACKUPS || !AllSound(records, sound)
    ensures visited <= records && AllSound(visited, sound) && (!failed ==> visited == records)
    ensures limit == 0 || limit > PAGE || |records| >= MAX_BACKUPS ==> visited == []
    ensures failed && 1 <= limit <= PAGE && |records| < MAX_BACKUPS ==>
              WholePages(|visited|, limit) && !AllSound(Slice(records, |visited|, limit), sound)
  {
    visited, failed := [], false;
    var cursor: Option<BackupId> := None;
    while true
      invariant |visited| <= |records| && visited == records[..|visited|] && AllSound(visited, sound)
      invariant visited != [] ==> 1 <= limit <= PAGE && |records| < MAX_BACKUPS
      invariant limit >= 1 ==> WholePages(|visited|, limit)
      invariant PointsAfter(records, cursor, |visited|)
      decreases |records| - |visited|
    {
      var page := ListBackups(records, sound, cursor, limit);
      if limit >= 1 {
        NextPage(records, cursor, |visited|, limit);
      }
      if page.Err? {
        if 1 <= limit <= PAGE && |records| < MAX_BACKUPS {
          DamageSpreads(records, sound, |visited|, limit);
        }
        return visited, true;
      }
      SoundTogether(visited, page.value.backups, sound);
      visited := visited + page.value.backups;
      if page.value.next.None? {
        assert visited == records;
        return;
      }
      cursor := page.value.next;
    }
  }

  lemma DamageSpreads(records: seq<BackupId>, sound: BackupId -> bool, start: nat, limit: nat)
    requires start <= |records| && !AllSound(Slice(records, start, limit), sound)
    ensures !AllSound(records, sound)
  {
    var page := Slice(records, start, limit);
    var id :| id in page && !sound(id);
    assert id in records;
  }
}
