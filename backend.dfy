/** The web module `quiz.web.js`: save a user's progress on a quiz (an upsert keyed by
    user and quiz), read it back, and append a submission of results. */
module Backend {
  import opened Wrappers
  import opened Items
  import opened DataStore
  import Hooks

  /** `query().eq('userId', u).eq('quizId', q)` keeps the items with both fields equal
      to the given values. A `null` user identifier matches items whose `userId` is
      `null`. */
  predicate Matches(d: Document, u: Value, q: Value)
  {
    UserId in d && d[UserId] == u && QuizId in d && d[QuizId] == q
  }

  /** Position of the first item the query returns. */
  function FirstMatch(ds: seq<Document>, u: Value, q: Value): (r: Option<nat>)
    ensures r.Some? ==> r.value < |ds| && Matches(ds[r.value], u, q)
                        && forall j :: 0 <= j < r.value ==> !Matches(ds[j], u, q)
    ensures r.None? ==> forall j :: 0 <= j < |ds| ==> !Matches(ds[j], u, q)
  {
    if |ds| == 0 then None
    else if Matches(ds[0], u, q) then Some(0)
    else match FirstMatch(ds[1..], u, q)
      case None => None
      case Some(k) => Some(k + 1)
  }

  /** `.find()`: the matching items, in collection order. */
  function Find(ds: seq<Document>, u: Value, q: Value): (r: seq<Document>)
    ensures |r| <= |ds|
    ensures |r| == 0 <==> FirstMatch(ds, u, q).None?
    ensures |r| > 0 ==> r[0] == ds[FirstMatch(ds, u, q).value]
  {
    if |ds| == 0 then []
    else if Matches(ds[0], u, q) then [ds[0]] + Find(ds[1..], u, q)
    else Find(ds[1..], u, q)
  }

  /** The query returns only items of the collection that match it. */
  lemma {:induction false} FindOnlyMatches(ds: seq<Document>, u: Value, q: Value)
    ensures forall d :: d in Find(ds, u, q) ==> d in ds && Matches(d, u, q)
    decreases |ds|
  {
    if |ds| > 0 {
      FindOnlyMatches(ds[1..], u, q);
      assert forall d :: d in ds[1..] ==> d in ds;
    }
  }

  /** The query returns every matching item of the collection. */
  lemma {:induction false} FindReturnsAllMatches(ds: seq<Document>, u: Value, q: Value)
    ensures forall i :: 0 <= i < |ds| && Matches(ds[i], u, q) ==> ds[i] in Find(ds, u, q)
    decreases |ds|
  {
    if |ds| > 0 {
      FindReturnsAllMatches(ds[1..], u, q);
      assert forall i :: 1 <= i < |ds| ==> ds[i] == ds[1..][i - 1];
    }
  }

  /** The positions of the collection whose item matches the query. */
  ghost function MatchPositions(ds: seq<Document>, u: Value, q: Value): set<nat>
  {
    set i: nat | i < |ds| && Matches(ds[i], u, q)
  }

  /** The matching positions of a collection are those of its prefix plus, when it
      matches, the last one. */
  lemma MatchPositionsStep(ds: seq<Document>, u: Value, q: Value)
    requires |ds| > 0
    ensures var n := |ds| - 1;
            && n !in MatchPositions(ds[..n], u, q)
            && MatchPositions(ds, u, q)
               == MatchPositions(ds[..n], u, q) + (if Matches(ds[n], u, q) then {n} else {})
  {
    var n := |ds| - 1;
    var init := ds[..n];
    var extra: set<nat> := if Matches(ds[n], u, q) then {n} else {};
    forall i: nat ensures i in MatchPositions(ds, u, q) <==> i in MatchPositions(init, u, q) + extra {
      if i < n {
        assert ds[i] == init[i];
      }
    }
  }

  /** The query's answer has one item per matching position: `|Find(..)|` is the
      number of items stored for the pair. */
  lemma {:induction false} FindCountsMatches(ds: seq<Document>, u: Value, q: Value)
    ensures |Find(ds, u, q)| == |MatchPositions(ds, u, q)|
    decreases |ds|
  {
    if |ds| == 0 {
      assert MatchPositions(ds, u, q) == {};
    } else {
      var n := |ds| - 1;
      FindCountsMatches(ds[..n], u, q);
      assert ds == ds[..n] + [ds[n]];
      FindAppend(ds[..n], ds[n], u, q);
      MatchPositionsStep(ds, u, q);
    }
  }

  /** Appending an item extends the query's answer by that item when it matches. */
  lemma {:induction false} FindAppend(ds: seq<Document>, d: Document, u: Value, q: Value)
    ensures Find(ds + [d], u, q) == Find(ds, u, q) + (if Matches(d, u, q) then [d] else [])
    decreases |ds|
  {
    if |ds| > 0 {
      assert (ds + [d])[1..] == ds[1..] + [d];
      FindAppend(ds[1..], d, u, q);
    }
  }

  /** Replacing an item by one that matches the query exactly when the old one did
      keeps the number of matches; when neither matches, the answer is unchanged. */
  lemma {:induction false} FindReplace(ds: seq<Document>, k: nat, d: Document, u: Value, q: Value)
    requires k < |ds| && (Matches(ds[k], u, q) <==> Matches(d, u, q))
    ensures |Find(ds[k := d], u, q)| == |Find(ds, u, q)|
    ensures !Matches(d, u, q) ==> Find(ds[k := d], u, q) == Find(ds, u, q)
    decreases |ds|
  {
    if k > 0 {
      assert ds[k := d][1..] == ds[1..][k - 1 := d];
      FindReplace(ds[1..], k - 1, d, u, q);
    } else {
      assert ds[k := d][1..] == ds[1..];
    }
  }

  /** The fields `saveQuizProgress` passes to `update`, besides the `_id`. */
  function ProgressChange(progress: Value, now: int): Document
  {
    map[Progress := progress, LastUpdated := Date(now)]
  }

  /** The item `saveQuizProgress` inserts, once the platform has given it `_id`
      `newId`. */
  function NewProgressItem(u: Value, q: Value, progress: Value, now: int, newId: nat): Document
  {
    map[UserId := u, QuizId := q, Progress := progress, Created := Date(now),
        LastUpdated := Date(now), Id := Key(newId)]
  }

  /** The progress collection after `saveQuizProgress`: the first match gets the new
      progress and `lastUpdated`, or, with no match, a new item is appended. */
  function Upsert(ds: seq<Document>, u: Value, q: Value, progress: Value, now: int, newId: nat): (r: seq<Document>)
    ensures |r| == |ds| + (if FirstMatch(ds, u, q).None? then 1 else 0)
    ensures forall i :: 0 <= i < |ds| && FirstMatch(ds, u, q) != Some(i) ==> r[i] == ds[i]
  {
    match FirstMatch(ds, u, q)
    case Some(k) => ds[k := ds[k] + ProgressChange(progress, now)]
    case None => ds + [NewProgressItem(u, q, progress, now, newId)]
  }

  /** Where the saved progress lives after `saveQuizProgress`. */
  function SavedAt(ds: seq<Document>, u: Value, q: Value): nat
  {
    match FirstMatch(ds, u, q)
    case Some(k) => k
    case None => |ds|
  }

  /** The saved item keeps its `_id`, `userId`, `quizId` and `created`, and carries the
      new progress and `lastUpdated`; when it was inserted, `created` is `now`. */
  lemma SavedItem(ds: seq<Document>, u: Value, q: Value, progress: Value, now: int, newId: nat)
    ensures var r := Upsert(ds, u, q, progress, now, newId);
            var k := SavedAt(ds, u, q);
            && k < |r| && Matches(r[k], u, q)
            && r[k][Progress] == progress && r[k][LastUpdated] == Date(now)
            && (k < |ds| ==> forall f :: f in ds[k] && f != Progress && f != LastUpdated
                                         ==> f in r[k] && r[k][f] == ds[k][f])
            && (k == |ds| ==> r[k][Created] == Date(now) && r[k][Id] == Key(newId))
  {
    var r := Upsert(ds, u, q, progress, now, newId);
    match FirstMatch(ds, u, q)
    case Some(k) =>
      var m := ds[k] + ProgressChange(progress, now);
      assert r[k] == m;
      assert m[UserId] == ds[k][UserId] && m[QuizId] == ds[k][QuizId];
    case None =>
      assert r[|ds|] == NewProgressItem(u, q, progress, now, newId);
  }

  /** After an upsert, the query's first match is the saved item. */
  lemma FirstMatchAfterUpsert(ds: seq<Document>, u: Value, q: Value, progress: Value, now: int, newId: nat)
    ensures FirstMatch(Upsert(ds, u, q, progress, now, newId), u, q) == Some(SavedAt(ds, u, q))
  {
    var r := Upsert(ds, u, q, progress, now, newId);
    var k := SavedAt(ds, u, q);
    SavedItem(ds, u, q, progress, now, newId);
    assert forall j :: 0 <= j < k ==> r[j] == ds[j];
  }

  /** `result.items[0]?.progress || null`. */
  function Lookup(ds: seq<Document>, u: Value, q: Value): (v: Value)
    ensures v.Null? || Truthy(v)
    ensures FirstMatch(ds, u, q).None? ==> v.Null?
    ensures Truthy(v) ==> var k := FirstMatch(ds, u, q).value;
                          Progress in ds[k] && ds[k][Progress] == v
    ensures FirstMatch(ds, u, q).Some? && Progress in ds[FirstMatch(ds, u, q).value]
            && Truthy(ds[FirstMatch(ds, u, q).value][Progress])
            ==> v == ds[FirstMatch(ds, u, q).value][Progress]
  {
    var items := Find(ds, u, q);
    if |items| > 0 && Progress in items[0] && Truthy(items[0][Progress]) then items[0][Progress]
    else Null
  }

  /** Round trip: reading back after a save gives the saved progress, or `null` when
      the saved progress was falsy. */
  lemma LookupAfterUpsert(ds: seq<Document>, u: Value, q: Value, progress: Value, now: int, newId: nat)
    ensures Lookup(Upsert(ds, u, q, progress, now, newId), u, q) == if Truthy(progress) then progress else Null
  {
    FirstMatchAfterUpsert(ds, u, q, progress, now, newId);
    SavedItem(ds, u, q, progress, now, newId);
  }

  /** One save leaves exactly as many items for the pair as before, or one when there
      were none. */
  lemma MatchCountAfterUpsert(ds: seq<Document>, u: Value, q: Value, progress: Value, now: int, newId: nat)
    ensures |Find(Upsert(ds, u, q, progress, now, newId), u, q)|
            == if |Find(ds, u, q)| == 0 then 1 else |Find(ds, u, q)|
  {
    var r := Upsert(ds, u, q, progress, now, newId);
    match FirstMatch(ds, u, q) {
      case Some(k) =>
        FindReplace(ds, k, ds[k] + ProgressChange(progress, now), u, q);
      case None =>
        FindAppend(ds, NewProgressItem(u, q, progress, now, newId), u, q);
    }
  }

  /** Items of every other (user, quiz) pair are untouched: the query for another pair
      returns the very same items after a save. */
  lemma UpsertLeavesOtherPairs(ds: seq<Document>, u: Value, q: Value, progress: Value, now: int, newId: nat,
                               u': Value, q': Value)
    requires u' != u || q' != q
    ensures Find(Upsert(ds, u, q, progress, now, newId), u', q') == Find(ds, u', q')
  {
    match FirstMatch(ds, u, q) {
      case Some(k) =>
        var d := ds[k] + ProgressChange(progress, now);
        assert d[UserId] == ds[k][UserId] && d[QuizId] == ds[k][QuizId];
        assert !Matches(d, u', q');
        FindReplace(ds, k, d, u', q');
      case None =>
        var d := NewProgressItem(u, q, progress, now, newId);
        assert d[UserId] == u && d[QuizId] == q;
        FindAppend(ds, d, u', q');
    }
  }

  /** Reading another pair's progress gives the same answer before and after a save. */
  lemma LookupOtherPairs(ds: seq<Document>, u: Value, q: Value, progress: Value, now: int, newId: nat,
                         u': Value, q': Value)
    requires u' != u || q' != q
    ensures Lookup(Upsert(ds, u, q, progress, now, newId), u', q') == Lookup(ds, u', q')
  {
    UpsertLeavesOtherPairs(ds, u, q, progress, now, newId, u', q');
  }

  /** Saving the same progress twice at the same time gives the collection a single
      save gives; the second call's newId identifier goes unused. */
  lemma UpsertIdempotent(ds: seq<Document>, u: Value, q: Value, progress: Value, now: int, newId: nat, newId': nat)
    ensures Upsert(Upsert(ds, u, q, progress, now, newId), u, q, progress, now, newId')
            == Upsert(ds, u, q, progress, now, newId)
  {
    var once := Upsert(ds, u, q, progress, now, newId);
    var k := SavedAt(ds, u, q);
    FirstMatchAfterUpsert(ds, u, q, progress, now, newId);
    var twice := Upsert(once, u, q, progress, now, newId');
    assert twice == once[k := once[k] + ProgressChange(progress, now)];
    SavedItem(ds, u, q, progress, now, newId);
    assert once[k] + ProgressChange(progress, now) == once[k];
  }

  /** A retried save, even at a later time, leaves the same number of items for the
      pair and the same stored progress as one save. */
  lemma UpsertRetry(ds: seq<Document>, u: Value, q: Value, progress: Value, now: int, newId: nat, later: int, newId': nat)
    ensures var once := Upsert(ds, u, q, progress, now, newId);
            var twice := Upsert(once, u, q, progress, later, newId');
            |Find(twice, u, q)| == |Find(once, u, q)| && Lookup(twice, u, q) == Lookup(once, u, q)
  {
    var once := Upsert(ds, u, q, progress, now, newId);
    MatchCountAfterUpsert(ds, u, q, progress, now, newId);
    MatchCountAfterUpsert(once, u, q, progress, later, newId');
    LookupAfterUpsert(ds, u, q, progress, now, newId);
    LookupAfterUpsert(once, u, q, progress, later, newId');
  }

  /** At most one item per (user, quiz) pair. */
  ghost predicate OnePerPair(ds: seq<Document>)
  {
    forall u, q :: |Find(ds, u, q)| <= 1
  }

  /** Saves made one after another keep at most one item per pair. Overlapping saves
      in the source can each miss the other's insert, so this holds only for
      sequential calls. */
  lemma UpsertKeepsOnePerPair(ds: seq<Document>, u: Value, q: Value, progress: Value, now: int, newId: nat)
    requires OnePerPair(ds)
    ensures OnePerPair(Upsert(ds, u, q, progress, now, newId))
  {
    var r := Upsert(ds, u, q, progress, now, newId);
    forall u', q' ensures |Find(r, u', q')| <= 1 {
      if u' == u && q' == q {
        MatchCountAfterUpsert(ds, u, q, progress, now, newId);
      } else {
        UpsertLeavesOtherPairs(ds, u, q, progress, now, newId, u', q');
      }
    }
  }

  /** The progress collection holds, under `progress`, only `null` or progress objects,
      which is all the widget writes. */
  ghost predicate ProgressShaped(ds: seq<Document>)
  {
    forall i :: 0 <= i < |ds| && Progress in ds[i] ==> ds[i][Progress].Null? || ds[i][Progress].ProgressData?
  }

  /** The update branch of `saveQuizProgress` writes what `Upsert` describes: merging
      `_id`, `progress` and `lastUpdated` into the first match. */
  lemma UpdateBranchIsUpsert(ds: seq<Document>, u: Value, q: Value, progress: Value, now: int, newId: nat)
    requires FirstMatch(ds, u, q).Some?
    requires var k := FirstMatch(ds, u, q).value; Id in ds[k]
    ensures var k := FirstMatch(ds, u, q).value;
            var fields := map[Id := ds[k][Id], Progress := progress, LastUpdated := Date(now)];
            ds[k := ds[k] + fields] == Upsert(ds, u, q, progress, now, newId)
  {
    var k := FirstMatch(ds, u, q).value;
    var fields := map[Id := ds[k][Id], Progress := progress, LastUpdated := Date(now)];
    assert ds[k] + fields == ds[k] + ProgressChange(progress, now);
  }

  /** The insert branch of `saveQuizProgress` writes what `Upsert` describes: the new
      item, appended. */
  lemma InsertBranchIsUpsert(ds: seq<Document>, u: Value, q: Value, progress: Value, now: int, newId: nat)
    requires FirstMatch(ds, u, q).None?
    ensures Upsert(ds, u, q, progress, now, newId) == ds + [NewProgressItem(u, q, progress, now, newId)]
    ensures SavedAt(ds, u, q) == |ds|
  {
  }

  /** Saving `null` or a progress object keeps every stored progress `null` or a
      progress object. */
  lemma UpsertKeepsShape(ds: seq<Document>, u: Value, q: Value, progress: Value, now: int, newId: nat)
    requires ProgressShaped(ds) && (progress.Null? || progress.ProgressData?)
    ensures ProgressShaped(Upsert(ds, u, q, progress, now, newId))
  {
    var r: seq<Document> := Upsert(ds, u, q, progress, now, newId);
    forall i: int | 0 <= i < |r| && Progress in r[i]
      ensures r[i][Progress].Null? || r[i][Progress].ProgressData?
    {
      if i == SavedAt(ds, u, q) {
        SavedItem(ds, u, q, progress, now, newId);
      }
    }
  }

  /** In a collection holding only what the widget writes, a read gives `null` or a
      progress object. */
  lemma LookupShaped(ds: seq<Document>, u: Value, q: Value)
    requires ProgressShaped(ds)
    ensures Lookup(ds, u, q).Null? || Lookup(ds, u, q).ProgressData?
  {
    var v := Lookup(ds, u, q);
    if Truthy(v) {
      var k := FirstMatch(ds, u, q).value;
      assert ds[k][Progress] == v;
    }
  }

  /** `saveQuizProgress(userId, quizId, progress)`. A storage failure rejects the call
      and writes nothing. */
  method SaveQuizProgress(db: Database, userId: Option<string>, quizId: string, progress: Value,
                          now: int, reachable: bool)
    returns (r: Result<Document, StoreError>)
    requires db.Valid()
    modifies db
    ensures db.Valid()
    ensures db.results == old(db.results)
    ensures !reachable ==> r == Failure(StorageUnavailable) && db.progress == old(db.progress)
    ensures reachable ==>
      var u, q := UserValue(userId), Text(quizId);
      && db.progress == Upsert(old(db.progress), u, q, progress, now, old(db.nextId))
      && r == Success(db.progress[SavedAt(old(db.progress), u, q)])
    ensures ProgressShaped(old(db.progress)) && (progress.Null? || progress.ProgressData?)
            ==> ProgressShaped(db.progress)
  {
    if !reachable {
      return Failure(StorageUnavailable);
    }
    var u, q := UserValue(userId), Text(quizId);
    ghost var ds := db.progress;
    var existingProgress := Find(db.progress, u, q);
    if |existingProgress| > 0 {
      ghost var k := FirstMatch(ds, u, q).value;
      var fields := map[Id := existingProgress[0][Id], Progress := progress, LastUpdated := Date(now)];
      var item := new Item(fields);
      Hooks.StampedAlreadyStamped(fields, UpdateStamps(QuizProgress), now);
      IndexOfOwnId(ds, db.nextId, k);
      r := db.Update(QuizProgress, item, now);
      UpdateBranchIsUpsert(ds, u, q, progress, now, old(db.nextId));
      assert SavedAt(ds, u, q) == k;
    } else {
      var fields := map[UserId := u, QuizId := q, Progress := progress, Created := Date(now), LastUpdated := Date(now)];
      var item := new Item(fields);
      Hooks.StampedAlreadyStamped(fields, InsertStamps(QuizProgress), now);
      var d := db.Insert(QuizProgress, item, now);
      assert d == NewProgressItem(u, q, progress, now, old(db.nextId));
      InsertBranchIsUpsert(ds, u, q, progress, now, old(db.nextId));
      r := Success(d);
    }
    if ProgressShaped(ds) && (progress.Null? || progress.ProgressData?) {
      UpsertKeepsShape(ds, u, q, progress, now, old(db.nextId));
    }
  }

  /** `getQuizProgress(userId, quizId)`: the first match's progress, or `null`. A
      storage failure rejects the call. */
  method GetQuizProgress(db: Database, userId: Option<string>, quizId: string, reachable: bool)
    returns (r: Result<Value, StoreError>)
    ensures !reachable ==> r == Failure(StorageUnavailable)
    ensures reachable ==> r.Success?
    ensures r.Success? ==> r.value == Lookup(db.progress, UserValue(userId), Text(quizId))
    ensures r.Success? ==> var v := r.value;
      && (v.Null? || Truthy(v))
      && (Truthy(v) <==> exists k :: 0 <= k < |db.progress|
                                     && Matches(db.progress[k], UserValue(userId), Text(quizId))
                                     && (forall j :: 0 <= j < k ==> !Matches(db.progress[j], UserValue(userId), Text(quizId)))
                                     && Progress in db.progress[k] && Truthy(db.progress[k][Progress]))
      && (Truthy(v) ==> v == db.progress[FirstMatch(db.progress, UserValue(userId), Text(quizId)).value][Progress])
  {
    if !reachable {
      return Failure(StorageUnavailable);
    }
    var result := Find(db.progress, UserValue(userId), Text(quizId));
    var v := if |result| > 0 && Progress in result[0] && Truthy(result[0][Progress]) then result[0][Progress] else Null;
    assert v == Lookup(db.progress, UserValue(userId), Text(quizId));
    return Success(v);
  }

  /** The item `submitQuizResults` inserts, once given `_id` `newId`. */
  function NewResultsItem(u: Value, q: Value, results: Value, now: int, newId: nat): Document
  {
    map[UserId := u, QuizId := q, Results := results, Submitted := Date(now), Id := Key(newId)]
  }

  /** Each submission adds exactly one item for its pair, with no deduplication, and
      none for any other pair. */
  lemma SubmissionAddsOne(ds: seq<Document>, u: Value, q: Value, results: Value, now: int, newId: nat,
                          u': Value, q': Value)
    ensures |Find(ds + [NewResultsItem(u, q, results, now, newId)], u', q')|
            == |Find(ds, u', q')| + (if u' == u && q' == q then 1 else 0)
  {
    var d := NewResultsItem(u, q, results, now, newId);
    FindAppend(ds, d, u', q');
    assert Matches(d, u', q') <==> u' == u && q' == q;
  }

  /** `submitQuizResults(userId, quizId, results)`: an unconditional insert into the
      results collection. A storage failure rejects the call and writes nothing. */
  method SubmitQuizResults(db: Database, userId: Option<string>, quizId: string, results: Value,
                           now: int, reachable: bool)
    returns (r: Result<Document, StoreError>)
    requires db.Valid()
    modifies db
    ensures db.Valid()
    ensures db.progress == old(db.progress)
    ensures !reachable ==> r == Failure(StorageUnavailable) && db.results == old(db.results)
    ensures reachable ==>
      var d := NewResultsItem(UserValue(userId), Text(quizId), results, now, old(db.nextId));
      r == Success(d) && db.results == old(db.results) + [d]
  {
    if !reachable {
      return Failure(StorageUnavailable);
    }
    var fields := map[UserId := UserValue(userId), QuizId := Text(quizId), Results := results, Submitted := Date(now)];
    var item := new Item(fields);
    Hooks.StampedAlreadyStamped(fields, InsertStamps(QuizResults), now);
    var d := db.Insert(QuizResults, item, now);
    return Success(d);
  }
}
