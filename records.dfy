/**
 * The ledger entry `Record(type, amount, description)` and the loosely typed
 * document a day's bucket is stored as. `LoadRecords` is the conversion done
 * in the success listener of `loadRecords`; `Encode` is the map `saveRecord`
 * builds for a record.
 */
module Records {
  import opened Wrappers

  /** A ledger entry; Kotlin's `type` field is called `kind` here. Equality is structural. */
  datatype Record = Record(kind: string, amount: string, description: string)

  /**
   * A stored value as the document database hands it back: a string, a map,
   * a list, or anything else (numbers, booleans, null, timestamps, ...).
   */
  datatype Value =
    | Str(s: string)
    | Fields(m: map<string, Value>)
    | Items(vs: seq<Value>)
    | Other

  /** The outcome of reading one day's document. */
  datatype Snapshot =
    | Failed                                // the get() task failed
    | Missing                               // no document stored for that day
    | Found(fields: map<string, Value>)     // the document's top-level fields

  /** `m[key] as? String ?: ""`. */
  function FieldString(m: map<string, Value>, key: string): (f: string)
    ensures key in m && m[key].Str? ==> f == m[key].s
    ensures !(key in m && m[key].Str?) ==> f == ""
  {
    if key in m && m[key].Str? then m[key].s else ""
  }

  /** The record built from one map-typed entry. */
  function RecordOf(m: map<string, Value>): (r: Record)
    ensures r.kind == FieldString(m, "type")
    ensures r.amount == FieldString(m, "amount")
    ensures r.description == FieldString(m, "description")
  {
    Record(FieldString(m, "type"), FieldString(m, "amount"), FieldString(m, "description"))
  }

  /** The lambda given to `mapNotNull`: a map becomes a record, anything else is dropped. */
  function DecodeEntry(v: Value): (r: Option<Record>)
    ensures r.Some? <==> v.Fields?
    ensures r.Some? ==> r.value == RecordOf(v.m)
  {
    match v
    case Fields(m) => Some(RecordOf(m))
    case _ => None
  }

  /** The number of map-typed entries in `vs`. */
  function CountFields(vs: seq<Value>): (n: nat)
    ensures n <= |vs|
  {
    if vs == [] then 0 else (if vs[0].Fields? then 1 else 0) + CountFields(vs[1..])
  }

  /** `mapNotNull` over the stored `records` list. */
  function DecodeEntries(vs: seq<Value>): (rs: seq<Record>)
    ensures |rs| == CountFields(vs) <= |vs|
  {
    if vs == [] then []
    else
      var rest := DecodeEntries(vs[1..]);
      match DecodeEntry(vs[0])
      case Some(r) => [r] + rest
      case None => rest
  }

  /**
   * The records shown for a day: a failed read, a missing document, or a
   * `records` field that is absent or not a list all give the empty list.
   */
  function LoadRecords(s: Snapshot): (rs: seq<Record>)
    ensures s.Failed? || s.Missing? ==> rs == []
    ensures s.Found? && !("records" in s.fields && s.fields["records"].Items?) ==> rs == []
    ensures s.Found? && "records" in s.fields && s.fields["records"].Items? ==>
              |rs| == CountFields(s.fields["records"].vs) &&
              rs == DecodeEntries(s.fields["records"].vs)
  {
    match s
    case Found(fields) =>
      if "records" in fields && fields["records"].Items? then DecodeEntries(fields["records"].vs)
      else []
    case _ => []
  }

  /** The `hashMapOf("type" to …, "amount" to …, "description" to …)` that `saveRecord` stores. */
  function Encode(r: Record): (v: Value)
    ensures v.Fields? && v.m.Keys == {"type", "amount", "description"}
  {
    Fields(map["type" := Str(r.kind), "amount" := Str(r.amount), "description" := Str(r.description)])
  }

  function EncodeAll(rs: seq<Record>): (vs: seq<Value>)
    ensures |vs| == |rs|
  {
    if rs == [] then [] else [Encode(rs[0])] + EncodeAll(rs[1..])
  }

  /** The document a day's bucket is stored as: `{"records": [...]}`. */
  function BucketDocument(rs: seq<Record>): (d: map<string, Value>)
    ensures d.Keys == {"records"} && d["records"].Items? && |d["records"].vs| == |rs|
    ensures forall k :: 0 <= k < |rs| ==> d["records"].vs[k] == Encode(rs[k])
  {
    EncodeAllPointwise(rs);
    map["records" := Items(EncodeAll(rs))]
  }

  // ---------------------------------------------------------------------
  // Properties of the decoding
  // ---------------------------------------------------------------------

  /** A single entry decodes to one record if it is a map and to nothing otherwise. */
  lemma DecodeSingle(v: Value)
    ensures DecodeEntries([v]) == if v.Fields? then [RecordOf(v.m)] else []
  {
    assert [v][1..] == [];
  }

  /**
   * Decoding distributes over concatenation. With `DecodeSingle` this fixes the
   * result completely: the map-typed entries, each as a record, in their
   * original order, and nothing else.
   */
  lemma {:induction false} DecodeAppend(a: seq<Value>, b: seq<Value>)
    ensures DecodeEntries(a + b) == DecodeEntries(a) + DecodeEntries(b)
  {
    if a != [] {
      assert (a + b)[1..] == a[1..] + b;
      DecodeAppend(a[1..], b);
    } else {
      assert a + b == b;
    }
  }

  /** A list with no map-typed entry decodes to nothing. */
  lemma {:induction false} NoMapsNoRecords(vs: seq<Value>)
    requires forall i :: 0 <= i < |vs| ==> !vs[i].Fields?
    ensures DecodeEntries(vs) == []
  {
    if vs != [] {
      NoMapsNoRecords(vs[1..]);
    }
  }

  /** A list of maps only loses nothing: the k-th record comes from the k-th entry. */
  lemma {:induction false} AllMapsDecodePointwise(vs: seq<Value>)
    requires forall i :: 0 <= i < |vs| ==> vs[i].Fields?
    ensures |DecodeEntries(vs)| == |vs|
    ensures forall k :: 0 <= k < |vs| ==> DecodeEntries(vs)[k] == RecordOf(vs[k].m)
  {
    if vs != [] {
      AllMapsDecodePointwise(vs[1..]);
      var rs := DecodeEntries(vs);
      assert rs == [RecordOf(vs[0].m)] + DecodeEntries(vs[1..]);
      forall k | 0 <= k < |vs|
        ensures rs[k] == RecordOf(vs[k].m)
      {
        if k > 0 {
          assert rs[k] == DecodeEntries(vs[1..])[k - 1];
          assert vs[1..][k - 1] == vs[k];
        }
      }
    }
  }

  /** Decoding what `saveRecord` encodes gives back the record. */
  lemma DecodeEncode(r: Record)
    ensures DecodeEntry(Encode(r)) == Some(r)
  {
    var m := Encode(r).m;
    assert FieldString(m, "type") == r.kind;
    assert FieldString(m, "amount") == r.amount;
    assert FieldString(m, "description") == r.description;
  }

  /** Two records are stored as the same map exactly when they are equal. */
  lemma EncodeInjective(a: Record, b: Record)
    ensures Encode(a) == Encode(b) <==> a == b
  {
    if Encode(a) == Encode(b) {
      DecodeEncode(a);
      DecodeEncode(b);
    }
  }

  /** Round trip: a stored list of encoded records decodes to the same list. */
  lemma {:induction false} DecodeEncodeAll(rs: seq<Record>)
    ensures DecodeEntries(EncodeAll(rs)) == rs
  {
    if rs != [] {
      DecodeEncode(rs[0]);
      DecodeEncodeAll(rs[1..]);
      assert EncodeAll(rs)[1..] == EncodeAll(rs[1..]);
      assert rs == [rs[0]] + rs[1..];
    }
  }

  /** Reading back a stored bucket document yields exactly the bucket. */
  lemma LoadBucketDocument(rs: seq<Record>)
    ensures LoadRecords(Found(BucketDocument(rs))) == rs
  {
    DecodeEncodeAll(rs);
  }

  /** Membership is preserved by encoding: `arrayUnion`'s test on maps is the test on records. */
  lemma {:induction false} EncodedMembership(rs: seq<Record>, r: Record)
    ensures Encode(r) in EncodeAll(rs) <==> r in rs
  {
    if rs != [] {
      EncodedMembership(rs[1..], r);
      EncodeInjective(r, rs[0]);
      assert EncodeAll(rs) == [Encode(rs[0])] + EncodeAll(rs[1..]);
      assert rs == [rs[0]] + rs[1..];
    }
  }

  /** The k-th stored map is the encoding of the k-th record. */
  lemma {:induction false} EncodeAllPointwise(rs: seq<Record>)
    ensures forall k :: 0 <= k < |rs| ==> EncodeAll(rs)[k] == Encode(rs[k])
  {
    if rs != [] {
      EncodeAllPointwise(rs[1..]);
      var vs, tail := EncodeAll(rs), EncodeAll(rs[1..]);
      assert vs == [Encode(rs[0])] + tail;
      forall k | 1 <= k < |rs|
        ensures vs[k] == Encode(rs[k])
      {
        assert vs[k] == tail[k - 1] && rs[1..][k - 1] == rs[k];
      }
    }
  }

  lemma {:induction false} EncodeAllAppend(a: seq<Record>, b: seq<Record>)
    ensures EncodeAll(a + b) == EncodeAll(a) + EncodeAll(b)
  {
    if a != [] {
      assert (a + b)[1..] == a[1..] + b;
      EncodeAllAppend(a[1..], b);
    } else {
      assert a + b == b;
    }
  }
}
