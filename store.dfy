/**
 * The per-day buckets `saveRecord` writes and `loadRecords` reads: one
 * document per (user, date key), holding the day's records. Only the data
 * transformation is modelled; the asynchronous get/set/update calls become
 * one synchronous step.
 */
module Store {
  import opened Wrappers
  import opened Records

  /** `users/<uid>/records/<date>`. */
  datatype BucketKey = BucketKey(uid: string, date: string)

  function Lookup(buckets: map<BucketKey, seq<Record>>, key: BucketKey): Option<seq<Record>> {
    if key in buckets then Some(buckets[key]) else None
  }

  /** `FieldValue.arrayUnion` on the stored list: append the value only when no equal value is present. */
  function ArrayUnionValues(vs: seq<Value>, v: Value): (ws: seq<Value>)
    ensures v in vs ==> ws == vs
    ensures v !in vs ==> ws == vs + [v]
  {
    if v in vs then vs else vs + [v]
  }

  /** The same union, on records. */
  function ArrayUnion(rs: seq<Record>, r: Record): (b: seq<Record>)
    ensures forall x :: x in b <==> x in rs || x == r
    ensures r in rs ==> b == rs
    ensures r !in rs ==> b == rs + [r]
  {
    if r in rs then rs else rs + [r]
  }

  /**
   * The bucket after `saveRecord(uid, date, r)`: `[r]` when no document
   * exists for the day, otherwise the `arrayUnion` of the stored list with `r`.
   */
  function SavedBucket(existing: Option<seq<Record>>, r: Record): (b: seq<Record>)
    ensures r in b
    ensures existing.None? ==> b == [r]
    ensures existing.Some? ==> b == ArrayUnion(existing.value, r)
  {
    match existing
    case None => [r]
    case Some(rs) => ArrayUnion(rs, r)
  }

  /** What reading a day's document gives. */
  function SnapshotOf(buckets: map<BucketKey, seq<Record>>, key: BucketKey): (s: Snapshot)
    ensures !s.Failed?
  {
    if key in buckets then Found(BucketDocument(buckets[key])) else Missing
  }

  class RecordStore {
    var buckets: map<BucketKey, seq<Record>>

    constructor ()
      ensures buckets == map[]
    {
      buckets := map[];
    }

    /** The snapshot `docRef.get()` yields for the day. */
    function Fetch(uid: string, date: string): (s: Snapshot)
      reads this
      ensures !s.Failed?
      ensures var key := BucketKey(uid, date);
              LoadRecords(s) == if key in buckets then buckets[key] else []
    {
      LoadSnapshot(buckets, BucketKey(uid, date));
      SnapshotOf(buckets, BucketKey(uid, date))
    }

    /** `saveRecord(uid, date, firestore, record)`: nothing happens without a signed-in user. */
    method Save(uid: Option<string>, date: string, r: Record)
      modifies this
      ensures uid.None? ==> buckets == old(buckets)
      ensures uid.Some? ==>
                var key := BucketKey(uid.value, date);
                buckets == old(buckets)[key := SavedBucket(Lookup(old(buckets), key), r)]
    {
      if uid.Some? {
        var key := BucketKey(uid.value, date);
        if key in buckets {
          buckets := buckets[key := ArrayUnion(buckets[key], r)];
        } else {
          buckets := buckets[key := [r]];
        }
      }
    }
  }

  // ---------------------------------------------------------------------
  // Properties of the store
  // ---------------------------------------------------------------------

  /** Loading a day reads back exactly its bucket, or nothing for a day without a document. */
  lemma LoadSnapshot(buckets: map<BucketKey, seq<Record>>, key: BucketKey)
    ensures LoadRecords(SnapshotOf(buckets, key)) == if key in buckets then buckets[key] else []
  {
    if key in buckets {
      LoadBucketDocument(buckets[key]);
    }
  }

  /** The union on records is the documented union on the stored maps. */
  lemma ArrayUnionEncoded(rs: seq<Record>, r: Record)
    ensures EncodeAll(ArrayUnion(rs, r)) == ArrayUnionValues(EncodeAll(rs), Encode(r))
  {
    EncodedMembership(rs, r);
    if r !in rs {
      EncodeAllAppend(rs, [r]);
      assert EncodeAll([r]) == [Encode(r)];
    }
  }

  /** Saving the same record twice is the same as saving it once. */
  lemma SaveIdempotent(existing: Option<seq<Record>>, r: Record)
    ensures SavedBucket(Some(SavedBucket(existing, r)), r) == SavedBucket(existing, r)
  {
  }

  predicate NoDuplicates(rs: seq<Record>) {
    forall i, j :: 0 <= i < j < |rs| ==> rs[i] != rs[j]
  }

  /** A bucket only ever written by `saveRecord` never holds two equal records. */
  lemma SaveKeepsNoDuplicates(existing: Option<seq<Record>>, r: Record)
    requires existing.Some? ==> NoDuplicates(existing.value)
    ensures NoDuplicates(SavedBucket(existing, r))
  {
    if existing.Some? && r !in existing.value {
      var rs := existing.value;
      var b := rs + [r];
      forall i, j | 0 <= i < j < |b| ensures b[i] != b[j] {
        if j == |rs| {
          assert b[i] == rs[i];
        }
      }
    }
  }

  /**
   * The screen appends every added record to its list, while the store
   * appends it only when the day holds no equal record. So when the screen
   * shows what is stored, the two still agree after adding `r` exactly when
   * `r` was not already there; adding a duplicate (same type, amount and
   * description on the same day) makes the screen show one more record than
   * the day's document holds.
   */
  lemma AddKeepsScreenInSync(buckets: map<BucketKey, seq<Record>>, key: BucketKey, r: Record)
    ensures var shown := LoadRecords(SnapshotOf(buckets, key));
            var stored := buckets[key := SavedBucket(Lookup(buckets, key), r)];
            LoadRecords(SnapshotOf(stored, key)) == shown + [r] <==> r !in shown
  {
    var stored := buckets[key := SavedBucket(Lookup(buckets, key), r)];
    LoadSnapshot(buckets, key);
    LoadSnapshot(stored, key);
    if key in buckets {
      var rs := buckets[key];
      if r in rs {
        assert |rs + [r]| != |rs|;
      }
    }
  }

  /** Saving touches only its own (user, date) bucket. */
  lemma SaveLeavesOtherDays(buckets: map<BucketKey, seq<Record>>, key: BucketKey, r: Record, other: BucketKey)
    requires other != key
    ensures SnapshotOf(buckets[key := SavedBucket(Lookup(buckets, key), r)], other) == SnapshotOf(buckets, other)
  {
  }
}
