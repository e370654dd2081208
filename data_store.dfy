/** The storage platform as the backend sees it: named collections of items, an
    `insert` that gives each new item a fresh `_id`, an `update` of the item with a
    given `_id`, and the data hooks the platform runs before each write. */
module DataStore {
  import opened Wrappers
  import opened Items
  import Hooks

  datatype CollectionName = QuizProgress | QuizResults

  /** Why a storage call rejects: the backing store did not answer, or an `update`
      named an `_id` the collection does not hold. */
  datatype StoreError = StorageUnavailable | ItemNotFound

  function Other(c: CollectionName): CollectionName
  {
    match c
    case QuizProgress => QuizResults
    case QuizResults => QuizProgress
  }

  /** The fields stamped by the collection's before-insert hook. */
  function InsertStamps(c: CollectionName): set<Field>
  {
    match c
    case QuizProgress => {Created, LastUpdated}
    case QuizResults => {Submitted}
  }

  /** The fields stamped by the collection's before-update hook. */
  function UpdateStamps(c: CollectionName): set<Field>
  {
    {LastUpdated}
  }

  predicate HasId(d: Document)
  {
    Id in d && d[Id].Key?
  }

  /** Every item carries an `_id` below `bound`, and no two items share one. */
  ghost predicate UniqueIds(ds: seq<Document>, bound: nat)
  {
    && (forall i :: 0 <= i < |ds| ==> HasId(ds[i]) && ds[i][Id].n < bound)
    && (forall i, j :: 0 <= i < j < |ds| ==> ds[i][Id] != ds[j][Id])
  }

  /** The position of the item whose `_id` is `id`. */
  function IndexOfId(ds: seq<Document>, id: Value): (r: Option<nat>)
    ensures r.Some? ==> r.value < |ds| && Id in ds[r.value] && ds[r.value][Id] == id
    ensures r.None? ==> forall i :: 0 <= i < |ds| ==> !(Id in ds[i] && ds[i][Id] == id)
  {
    if |ds| == 0 then None
    else if Id in ds[0] && ds[0][Id] == id then Some(0)
    else match IndexOfId(ds[1..], id)
      case None => None
      case Some(k) => Some(k + 1)
  }

  /** With unique identifiers, looking an item's `_id` up finds that same item. */
  lemma IndexOfOwnId(ds: seq<Document>, bound: nat, k: nat)
    requires UniqueIds(ds, bound) && k < |ds|
    ensures IndexOfId(ds, ds[k][Id]) == Some(k)
  {
    var r := IndexOfId(ds, ds[k][Id]);
    assert r.Some?;
  }

  /** The position an update's fields address, if any. */
  function UpdateTarget(ds: seq<Document>, fields: Document): Option<nat>
  {
    if Id in fields then IndexOfId(ds, fields[Id]) else None
  }

  class Database {
    var progress: seq<Document>
    var results: seq<Document>
    var nextId: nat

    ghost predicate Valid()
      reads this
    {
      UniqueIds(progress, nextId) && UniqueIds(results, nextId)
    }

    /** The items of one collection, in insertion order. */
    function Contents(c: CollectionName): seq<Document>
      reads this
    {
      match c
      case QuizProgress => progress
      case QuizResults => results
    }

    constructor ()
      ensures Valid() && progress == [] && results == []
    {
      progress, results, nextId := [], [], 0;
    }

    /** `collection.insert(item)`: the before-insert hook stamps the item, which is
        stored with a fresh `_id` after every existing item. */
    method Insert(c: CollectionName, item: Item, now: int) returns (d: Document)
      requires Valid()
      modifies this, item
      ensures Valid()
      ensures d == Hooks.Stamped(old(item.fields), InsertStamps(c), now)[Id := Key(old(nextId))]
      ensures Contents(c) == old(Contents(c)) + [d]
      ensures Contents(Other(c)) == old(Contents(Other(c)))
      ensures item.fields == Hooks.Stamped(old(item.fields), InsertStamps(c), now)
    {
      var hooked;
      match c {
        case QuizProgress => hooked := Hooks.QuizProgressOnBeforeInsert(item, now);
        case QuizResults => hooked := Hooks.QuizResultsOnBeforeInsert(item, now);
      }
      d := hooked.fields[Id := Key(nextId)];
      match c {
        case QuizProgress => progress := progress + [d];
        case QuizResults => results := results + [d];
      }
      nextId := nextId + 1;
    }

    /** `collection.update(item)`: the before-update hook stamps the item, whose
        fields then overwrite those of the stored item with the same `_id`; fields
        the update does not name keep their stored values. */
    method Update(c: CollectionName, item: Item, now: int) returns (r: Result<Document, StoreError>)
      requires Valid()
      modifies this, item
      ensures Valid() && nextId == old(nextId)
      ensures item.fields == Hooks.Stamped(old(item.fields), UpdateStamps(c), now)
      ensures Contents(Other(c)) == old(Contents(Other(c)))
      ensures var k := UpdateTarget(old(Contents(c)), item.fields);
              if k.None? then r == Failure(ItemNotFound) && Contents(c) == old(Contents(c))
              else r == Success(old(Contents(c))[k.value] + item.fields)
                   && Contents(c) == old(Contents(c))[k.value := r.value]
    {
      var hooked;
      match c {
        case QuizProgress => hooked := Hooks.QuizProgressOnBeforeUpdate(item, now);
        case QuizResults => hooked := Hooks.QuizResultsOnBeforeUpdate(item, now);
      }
      var fields := hooked.fields;
      var ds := Contents(c);
      var k := UpdateTarget(ds, fields);
      if k.None? {
        return Failure(ItemNotFound);
      }
      var merged := ds[k.value] + fields;
      assert merged[Id] == ds[k.value][Id];
      match c {
        case QuizProgress => progress := progress[k.value := merged];
        case QuizResults => results := results[k.value := merged];
      }
      r := Success(merged);
    }
  }
}
