/** The catalog service of src/services/data.js over a listing store. The store
    is the collection's documents in natural (insertion) order; the read-only
    queries are functions of it, and the operations that change it are methods
    of the class `Catalog`. */
module DataService {
  import opened Common
  import opened DataModel

  /** What the service throws. `NotAList` is the `TypeError` of pushing onto a
      path that does not hold a list. */
  datatype DataError = RecordNotFound(id: Id) | AccessDenied | NotAList(name: string)

  /** The name of the one list path of a listing that interactions are pushed onto. */
  const LikesPath: string := "likes"

  /** No two listings of the store share an `_id`. */
  ghost predicate ListingIdsUnique(records: seq<Listing>)
  {
    forall i, j :: 0 <= i < j < |records| ==> records[i].id != records[j].id
  }

  /** The position of the listing with `_id == id`, as `findById` locates it. */
  function IndexOf(records: seq<Listing>, id: Id): (r: Option<nat>)
    ensures r.Some? ==> r.value < |records| && records[r.value].id == id
    ensures r.None? <==> forall i :: 0 <= i < |records| ==> records[i].id != id
  {
    if records == [] then None
    else if records[0].id == id then Some(0)
    else match IndexOf(records[1..], id)
      case None => None
      case Some(k) => Some(k + 1)
  }

  /** `getById`: the listing with that id, or nothing. */
  function GetById(records: seq<Listing>, id: Id): (r: Option<Listing>)
    ensures r.Some? ==> r.value in records && r.value.id == id
    ensures r.None? <==> forall l :: l in records ==> l.id != id
  {
    match IndexOf(records, id)
    case None => None
    case Some(i) => Some(records[i])
  }

  /** In a store with unique ids, `getById` finds every stored listing by its own id. */
  lemma GetByIdFindsStored(records: seq<Listing>, i: nat)
    requires ListingIdsUnique(records) && i < |records|
    ensures GetById(records, records[i].id) == Some(records[i])
  {
  }

  /** `getByIdKey`: the single path `key` of the listing with that id, or nothing
      when there is no such listing or no such set path. */
  function GetByIdKey(records: seq<Listing>, id: Id, key: string): (r: Option<Value>)
    ensures GetById(records, id).None? ==> r.None?
    ensures key !in PathNames ==> r.None?
    ensures GetById(records, id).Some? && key == "owner" ==> r == Some(Ref(GetById(records, id).value.owner))
    ensures GetById(records, id).Some? && key == "likes" ==> r == Some(Refs(GetById(records, id).value.likes))
    ensures GetById(records, id).Some? && key == VersionKey ==> r == Some(Number(GetById(records, id).value.version))
    ensures GetById(records, id).Some? ==> r == PathValue(GetById(records, id).value, key)
  {
    match GetById(records, id)
    case None => None
    case Some(l) => PathValue(l, key)
  }

  /** `getAll`: every stored listing, in natural order. */
  function GetAll(records: seq<Listing>): (r: seq<Listing>)
    ensures |r| == |records|
    ensures forall l :: l in r <==> l in records
  {
    records
  }

  /** In a store with unique ids, each listing `getAll` returns is the one
      `getById` returns for its id. */
  lemma GetAllAgreesWithGetById(records: seq<Listing>)
    requires ListingIdsUnique(records)
    ensures forall l :: l in GetAll(records) ==> GetById(records, l.id) == Some(l)
  {
    forall l | l in records ensures GetById(records, l.id) == Some(l) {
      var i :| 0 <= i < |records| && records[i] == l;
      GetByIdFindsStored(records, i);
    }
  }

  /** Listings in non-increasing `played` order. */
  ghost predicate SortedByPlayed(s: seq<Listing>)
  {
    forall i, j :: 0 <= i < j < |s| ==> s[i].played >= s[j].played
  }

  /** Inserts `l` into a list sorted by `played`, before the first entry it is not below. */
  function InsertByPlayed(l: Listing, s: seq<Listing>): seq<Listing>
  {
    if s == [] || l.played >= s[0].played then [l] + s
    else [s[0]] + InsertByPlayed(l, s[1..])
  }

  /** Insertion adds exactly the inserted listing. */
  lemma {:induction false} InsertByPlayedMultiset(l: Listing, s: seq<Listing>)
    ensures multiset(InsertByPlayed(l, s)) == multiset(s) + multiset{l}
  {
    if s != [] && l.played < s[0].played {
      InsertByPlayedMultiset(l, s[1..]);
      assert s == [s[0]] + s[1..];
    }
  }

  /** Insertion brings in no entry larger than the bound its input respects. */
  lemma {:induction false} InsertByPlayedBounded(l: Listing, s: seq<Listing>, bound: int)
    requires l.played <= bound && forall x :: x in s ==> x.played <= bound
    ensures forall x :: x in InsertByPlayed(l, s) ==> x.played <= bound
  {
    if s != [] && l.played < s[0].played {
      InsertByPlayedBounded(l, s[1..], bound);
    }
  }

  /** Insertion into a sorted list keeps it sorted. */
  lemma {:induction false} InsertByPlayedSorted(l: Listing, s: seq<Listing>)
    requires SortedByPlayed(s)
    ensures SortedByPlayed(InsertByPlayed(l, s))
  {
    if s != [] && l.played < s[0].played {
      var t := InsertByPlayed(l, s[1..]);
      InsertByPlayedSorted(l, s[1..]);
      InsertByPlayedBounded(l, s[1..], s[0].played);
      var r := [s[0]] + t;
      forall i, j | 0 <= i < j < |r| ensures r[i].played >= r[j].played {
        if i == 0 { assert r[j] == t[j - 1]; assert t[j - 1] in t; }
        else { assert r[i] == t[i - 1] && r[j] == t[j - 1]; }
      }
    }
  }

  /** Sorts a list of listings by `played`, largest first. */
  function SortByPlayed(s: seq<Listing>): (r: seq<Listing>)
    ensures SortedByPlayed(r)
    ensures multiset(r) == multiset(s)
  {
    if s == [] then []
    else
      var rest := SortByPlayed(s[1..]);
      InsertByPlayedSorted(s[0], rest);
      InsertByPlayedMultiset(s[0], rest);
      assert s == [s[0]] + s[1..];
      InsertByPlayed(s[0], rest)
  }

  /** How many listings `getTopFivePlayed` asks for. */
  const TopLimit: nat := 5

  /** The split of a list at a position preserves its multiset. */
  lemma MultisetSplit(s: seq<Listing>, k: nat)
    requires k <= |s|
    ensures multiset(s) == multiset(s[..k]) + multiset(s[k..])
  {
    assert s == s[..k] + s[k..];
  }

  /** A prefix of a sorted list holds the largest entries: whatever the prefix
      leaves out is no larger than its last entry. */
  lemma {:induction false} SortedPrefixTop(sorted: seq<Listing>, k: nat)
    requires SortedByPlayed(sorted) && 0 < k <= |sorted|
    ensures forall l :: l in multiset(sorted) - multiset(sorted[..k]) ==> l.played <= sorted[k - 1].played
  {
    MultisetSplit(sorted, k);
    forall l | l in multiset(sorted) - multiset(sorted[..k]) ensures l.played <= sorted[k - 1].played {
      assert l in multiset(sorted[k..]);
      assert l in sorted[k..];
      var j :| 0 <= j < |sorted[k..]| && sorted[k..][j] == l;
      assert sorted[k + j] == l;
    }
  }

  /** A prefix is a sub-multiset. */
  lemma PrefixSubMultiset(s: seq<Listing>, k: nat)
    requires k <= |s|
    ensures multiset(s[..k]) <= multiset(s)
  {
    MultisetSplit(s, k);
  }

  /** `getTopFivePlayed`: `find().sort({played: -1}).limit(5)`. At most five
      stored listings, largest `played` first, and no listing left out has a
      larger `played` than the last one returned. MongoDB leaves the order of
      ties open; this is one order it may return. */
  function GetTopFivePlayed(records: seq<Listing>): (r: seq<Listing>)
    ensures |r| == if |records| < TopLimit then |records| else TopLimit
    ensures SortedByPlayed(r)
    ensures multiset(r) <= multiset(records)
    ensures forall l :: l in multiset(records) - multiset(r) ==>
              |r| == TopLimit && l.played <= r[TopLimit - 1].played
  {
    var sorted := SortByPlayed(records);
    var k := if |sorted| < TopLimit then |sorted| else TopLimit;
    PrefixSubMultiset(sorted, k);
    if k < TopLimit then
      assert sorted[..k] == sorted;
      sorted[..k]
    else
      SortedPrefixTop(sorted, k);
      sorted[..k]
  }

  /** `update`'s assignments: the six body fields replace the record's own;
      `topSpeed` goes through `Number`. Setting scalar paths leaves the version key as it is. */
  function Revised(l: Listing, d: ListingInput): (r: Listing)
    ensures r.model == d.model && r.manufacturer == d.manufacturer && r.engine == d.engine
    ensures r.topSpeed == NumberOf(d.topSpeed) && r.image == d.image && r.description == d.description
    ensures r.id == l.id && r.owner == l.owner && r.likes == l.likes && r.played == l.played
    ensures r.name == l.name && r.genre == l.genre && r.views == l.views && r.iframeUrl == l.iframeUrl
    ensures r.version == l.version
  {
    l.(model := d.model, manufacturer := d.manufacturer, engine := d.engine,
       topSpeed := NumberOf(d.topSpeed), image := d.image, description := d.description)
  }

  /** `record[interactorsListName].push(userId)` on the `likes` path, then `save`:
      a `$push` onto an array makes Mongoose increment the version key. */
  function Liked(l: Listing, userId: string): (r: Listing)
    ensures r.likes == l.likes + [userId]
    ensures r.version == l.version + 1
    ensures r == l.(likes := r.likes, version := r.version)
  {
    l.(likes := l.likes + [userId], version := l.version + 1)
  }

  /** Pushing appends and never deduplicates: an id pushed again is there once more. */
  lemma LikedCounts(l: Listing, userId: string, other: string)
    ensures |Liked(l, userId).likes| == |l.likes| + 1
    ensures multiset(Liked(l, userId).likes)[userId] == multiset(l.likes)[userId] + 1
    ensures other != userId ==> multiset(Liked(l, userId).likes)[other] == multiset(l.likes)[other]
  {
  }

  /** Removal of the listing at position `i`. */
  function RemoveAt(records: seq<Listing>, i: nat): (r: seq<Listing>)
    requires i < |records|
    ensures |r| == |records| - 1
    ensures forall k :: 0 <= k < i ==> r[k] == records[k]
    ensures forall k :: i <= k < |r| ==> r[k] == records[k + 1]
  {
    records[..i] + records[i + 1..]
  }

  /** After `findByIdAndDelete` on a store with unique ids the id is gone and every
      other listing is still there. */
  lemma RemoveAtDeletesOnlyId(records: seq<Listing>, i: nat)
    requires ListingIdsUnique(records) && i < |records|
    ensures GetById(RemoveAt(records, i), records[i].id).None?
    ensures forall l :: l in records && l.id != records[i].id ==> l in RemoveAt(records, i)
    ensures forall l :: l in RemoveAt(records, i) ==> l in records
  {
    var r := RemoveAt(records, i);
    forall l | l in r ensures l.id != records[i].id && l in records {
      var k :| 0 <= k < |r| && r[k] == l;
      if k < i { assert records[k] == l; } else { assert records[k + 1] == l; }
    }
    forall l | l in records && l.id != records[i].id ensures l in r {
      var k :| 0 <= k < |records| && records[k] == l;
      if k < i { assert r[k] == l; } else { assert k != i; assert r[k - 1] == l; }
    }
  }

  /** The listing store. */
  class Catalog {
    /** The documents of the collection, in natural order. */
    var records: seq<Listing>
    /** The next ObjectId the generator hands out; every stored id is below it. */
    var nextId: Id

    ghost predicate Valid()
      reads this
    {
      ListingIdsUnique(records) && forall i :: 0 <= i < |records| ==> records[i].id < nextId
    }

    /** An empty collection. */
    constructor ()
      ensures Valid() && records == [] && nextId == 0
    {
      records := [];
      nextId := 0;
    }

    /** `create(data, authorId)`: a new document with a fresh id, the body's
        fields, no likes and the author as owner, saved at the end of the store. */
    method Create(data: ListingInput, authorId: Id) returns (record: Listing)
      requires Valid()
      modifies this
      ensures Valid()
      ensures record == NewListing(old(nextId), data, authorId)
      ensures record.likes == [] && record.owner == authorId
      ensures GetById(old(records), record.id).None?
      ensures records == old(records) + [record]
      ensures nextId == old(nextId) + 1
    {
      record := NewListing(nextId, data, authorId);
      records := records + [record];
      nextId := nextId + 1;
    }

    /** `update(id, userId, newData)`: "Record not found" when there is no such
        listing, "Access denied" when `userId` is not its owner, otherwise the
        six body fields are replaced and nothing else changes. */
    method Update(id: Id, userId: Id, newData: ListingInput) returns (r: Result<Listing, DataError>)
      requires Valid()
      modifies this
      ensures Valid() && nextId == old(nextId)
      ensures IndexOf(old(records), id).None? ==>
                r == Failure(RecordNotFound(id)) && records == old(records)
      ensures IndexOf(old(records), id).Some? ==>
                var i := IndexOf(old(records), id).value;
                if old(records)[i].owner != userId then
                  r == Failure(AccessDenied) && records == old(records)
                else
                  r == Success(Revised(old(records)[i], newData)) &&
                  records == old(records)[i := Revised(old(records)[i], newData)]
    {
      var found := IndexOf(records, id);
      if found.None? {
        return Failure(RecordNotFound(id));
      }
      var i := found.value;
      var record := records[i];
      if record.owner != userId {
        return Failure(AccessDenied);
      }
      record := Revised(record, newData);
      records := records[i := record];
      return Success(record);
    }

    /** `interact(id, userId, interactorsListName)`: "Record not found" when there is
        no such listing; a `TypeError` when the named path is not the `likes` list;
        otherwise `userId` is appended to `likes`, duplicates included. */
    method Interact(id: Id, userId: string, interactorsListName: string) returns (r: Result<Listing, DataError>)
      requires Valid()
      modifies this
      ensures Valid() && nextId == old(nextId)
      ensures IndexOf(old(records), id).None? ==>
                r == Failure(RecordNotFound(id)) && records == old(records)
      ensures IndexOf(old(records), id).Some? ==>
                var i := IndexOf(old(records), id).value;
                if interactorsListName != LikesPath then
                  r == Failure(NotAList(interactorsListName)) && records == old(records)
                else
                  r == Success(Liked(old(records)[i], userId)) &&
                  records == old(records)[i := Liked(old(records)[i], userId)]
    {
      var found := IndexOf(records, id);
      if found.None? {
        return Failure(RecordNotFound(id));
      }
      var i := found.value;
      if interactorsListName != LikesPath {
        return Failure(NotAList(interactorsListName));
      }
      var record := Liked(records[i], userId);
      records := records[i := record];
      return Success(record);
    }

    /** `deleteById(id, userId)`: "Record not found" when there is no such listing,
        "Access denied" when `userId` is not its owner, otherwise the listing is
        removed and the others stay in order. */
    method DeleteById(id: Id, userId: Id) returns (r: Outcome<DataError>)
      requires Valid()
      modifies this
      ensures Valid() && nextId == old(nextId)
      ensures IndexOf(old(records), id).None? ==>
                r == Fail(RecordNotFound(id)) && records == old(records)
      ensures IndexOf(old(records), id).Some? ==>
                var i := IndexOf(old(records), id).value;
                if old(records)[i].owner != userId then
                  r == Fail(AccessDenied) && records == old(records)
                else
                  r == Pass && records == RemoveAt(old(records), i)
      ensures r == Pass ==> GetById(records, id).None?
    {
      var found := IndexOf(records, id);
      if found.None? {
        return Fail(RecordNotFound(id));
      }
      var i := found.value;
      if records[i].owner != userId {
        return Fail(AccessDenied);
      }
      RemoveAtDeletesOnlyId(records, i);
      records := RemoveAt(records, i);
      return Pass;
    }
  }
}
