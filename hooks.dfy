/** The data hooks of the two collections: each stamps timestamp fields of the item it
    is given, in place, and returns that same item. */
module Hooks {
  import opened Items

  /** `fields` with every field in `stamps` set to the date `now`. */
  function Stamped(fields: Document, stamps: set<Field>, now: int): (r: Document)
    ensures r.Keys == fields.Keys + stamps
    ensures forall f :: f in stamps ==> r[f] == Date(now)
    ensures forall f :: f in fields && f !in stamps ==> r[f] == fields[f]
  {
    map f | f in fields.Keys + stamps :: if f in stamps then Date(now) else fields[f]
  }

  /** Stamping twice with the same clock is stamping once. */
  lemma StampedIdempotent(fields: Document, stamps: set<Field>, now: int)
    ensures Stamped(Stamped(fields, stamps, now), stamps, now) == Stamped(fields, stamps, now)
  {
    var once := Stamped(fields, stamps, now);
    var twice := Stamped(once, stamps, now);
    assert twice.Keys == once.Keys;
    forall f | f in once ensures twice[f] == once[f] { }
  }

  /** An item whose stamp fields already carry the date `now` is left as it is. */
  lemma StampedAlreadyStamped(fields: Document, stamps: set<Field>, now: int)
    requires forall f :: f in stamps ==> f in fields && fields[f] == Date(now)
    ensures Stamped(fields, stamps, now) == fields
  {
    var r := Stamped(fields, stamps, now);
    assert r.Keys == fields.Keys;
    forall f | f in fields ensures r[f] == fields[f] { }
  }

  /** `quizProgress_onBeforeInsert`: sets `created` and `lastUpdated`. */
  method QuizProgressOnBeforeInsert(item: Item, now: int) returns (r: Item)
    modifies item
    ensures r == item
    ensures item.fields == Stamped(old(item.fields), {Created, LastUpdated}, now)
  {
    item.fields := item.fields[Created := Date(now)];
    item.fields := item.fields[LastUpdated := Date(now)];
    return item;
  }

  /** `quizProgress_onBeforeUpdate`: sets `lastUpdated` only. */
  method QuizProgressOnBeforeUpdate(item: Item, now: int) returns (r: Item)
    modifies item
    ensures r == item
    ensures item.fields == Stamped(old(item.fields), {LastUpdated}, now)
  {
    item.fields := item.fields[LastUpdated := Date(now)];
    return item;
  }

  /** `quizResults_onBeforeInsert`: sets `submitted` only. */
  method QuizResultsOnBeforeInsert(item: Item, now: int) returns (r: Item)
    modifies item
    ensures r == item
    ensures item.fields == Stamped(old(item.fields), {Submitted}, now)
  {
    item.fields := item.fields[Submitted := Date(now)];
    return item;
  }

  /** `quizResults_onBeforeUpdate`: sets `lastUpdated` only. */
  method QuizResultsOnBeforeUpdate(item: Item, now: int) returns (r: Item)
    modifies item
    ensures r == item
    ensures item.fields == Stamped(old(item.fields), {LastUpdated}, now)
  {
    item.fields := item.fields[LastUpdated := Date(now)];
    return item;
  }
}
