/** The batch status query of `app/api/files/status/route.ts`. */
module StatusRoute {
  import opened Wrappers
  import opened Strings
  import opened FileRecords

  /** The handler's answer: 400 when no ids were given, otherwise the found entries. */
  datatype StatusResponse = NoIds | Statuses(entries: seq<StatusEntry>)

  /** `searchParams.get("ids")?.split(",") || []`: an absent parameter gives no ids. */
  function ParseIds(ids: Option<string>): (r: seq<string>)
    ensures ids.None? <==> r == []
    ensures ids.Some? ==> Join(r, ',') == ids.value
    ensures forall i :: 0 <= i < |r| ==> ',' !in r[i]
  {
    match ids
    case None => []
    case Some(s) =>
      JoinSplit(s, ',');
      Split(s, ',')
  }

  /** The parsed ids are the only comma-free pieces that join back to the parameter. */
  lemma ParseIdsIsUnique(ids: string, pieces: seq<string>)
    requires |pieces| >= 1 && forall i :: 0 <= i < |pieces| ==> ',' !in pieces[i]
    requires Join(pieces, ',') == ids
    ensures pieces == ParseIds(Some(ids))
  {
    SplitJoin(pieces, ',');
  }

  /** The `{id, status, progress}` view of a stored record. */
  function EntryOf(f: StoredFile): StatusEntry
  {
    StatusEntry(f.id, f.status, f.progress)
  }

  /** Looks every requested id up and drops the unknown ones, keeping request order. */
  function Lookup(files: seq<StoredFile>, ids: seq<string>): (r: seq<StatusEntry>)
    ensures |r| <= |ids|
    ensures forall e :: e in r ==> e.id in ids && FindFile(files, e.id).Some? && e == EntryOf(FindFile(files, e.id).value)
    ensures forall id :: id in ids && FindFile(files, id).Some? ==> EntryOf(FindFile(files, id).value) in r
  {
    if ids == [] then [] else Found(files, ids[0]) + Lookup(files, ids[1..])
  }

  /** The entry for one id: `null` (dropped by `filter(Boolean)`) when it is unknown. */
  function Found(files: seq<StoredFile>, id: string): seq<StatusEntry>
  {
    match FindFile(files, id)
    case Some(f) => [EntryOf(f)]
    case None => []
  }

  /** `GET`: the store is only read. */
  function Get(files: seq<StoredFile>, ids: Option<string>): (r: StatusResponse)
    ensures r == NoIds <==> ids.None?
    ensures r.Statuses? ==> r.entries == Lookup(files, ParseIds(ids))
  {
    var fileIds := ParseIds(ids);
    if |fileIds| == 0 then NoIds else Statuses(Lookup(files, fileIds))
  }

  /** The answer for a longer request is the answer for its front followed by the answer
      for its back: entries come in request order. */
  lemma {:induction false} LookupFollowsRequestOrder(files: seq<StoredFile>, a: seq<string>, b: seq<string>)
    ensures Lookup(files, a + b) == Lookup(files, a) + Lookup(files, b)
  {
    if a == [] {
      assert a + b == b;
    } else {
      assert (a + b)[0] == a[0];
      assert (a + b)[1..] == a[1..] + b;
      LookupFollowsRequestOrder(files, a[1..], b);
      var head := Found(files, a[0]);
      assert Lookup(files, a + b) == head + Lookup(files, a[1..] + b);
      assert head + (Lookup(files, a[1..]) + Lookup(files, b)) == (head + Lookup(files, a[1..])) + Lookup(files, b);
    }
  }

  /** A requested id yields exactly one entry when known and none otherwise, so a duplicated
      id yields a duplicated entry. */
  lemma LookupOne(files: seq<StoredFile>, id: string)
    ensures Lookup(files, [id]) == if FindFile(files, id).Some? then [EntryOf(FindFile(files, id).value)] else []
    ensures FindFile(files, id).Some? ==> |Lookup(files, [id, id])| == 2
  {
    assert [id, id][1..] == [id];
    assert [id][1..] == [];
  }
}
