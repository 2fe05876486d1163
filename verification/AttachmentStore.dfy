/**
 platform/attachment-store.ts: attachments in KV, with metadata inline or in a sidecar value, and in R2 with KV
 behind it.  Both behave as one map from keys to objects, whatever was in KV before.
 */
module AttachmentStore {
  import opened Blocks
  import opened Words
  import Bodies
  import opened Options

  type Key = string
  type Headers = map<string, string>
  type Time = string

  const KV_VALUE_LIMIT := 25 * 1024 * 1024
  const KV_USER_METADATA_LIMIT := 1024

  /** What a caller puts beside the body. */
  datatype Metadata = Metadata(http: Option<Headers>, custom: Option<Headers>)

  datatype Object = Object(body: Bytes, size: nat, http: Headers, custom: Headers)

  datatype StoredMetadata = StoredMetadata(size: nat, http: Option<Headers>, custom: Option<Headers>)

  /** The metadata slot of a KV value: any of the fields may be missing from what older code wrote. */
  datatype Slot = Slot(uploadedAt: Option<Time>, overflow: bool, size: Option<nat>, http: Option<Headers>,
      custom: Option<Headers>)

  /** A sidecar value: what `serializeMeta` writes, or text that is not JSON. */
  datatype Sidecar = Serialized(meta: StoredMetadata) | Unreadable

  datatype Value = Value(body: Bytes, slot: Option<Slot>)

  datatype Answer = Stored | TooLarge

  // ------------------------------------------------------------------ encoding

  const OVERFLOW_MARKER := Slot(Some(""), true, None, None, None)

  function Inline(meta: StoredMetadata, uploadedAt: Time): Slot {
    Slot(Some(uploadedAt), false, Some(meta.size), meta.http, meta.custom)
  }

  /** `tryEncodeKvMetadata`; `length` is the length of a slot as JSON text. */
  function TryEncode(length: Slot -> nat, meta: StoredMetadata, uploadedAt: Time): (Slot, bool) {
    if length(Slot(Some(uploadedAt), false, None, None, None)) > KV_USER_METADATA_LIMIT then (OVERFLOW_MARKER, true)
    else if length(Inline(meta, uploadedAt)) <= KV_USER_METADATA_LIMIT then (Inline(meta, uploadedAt), false)
    else (OVERFLOW_MARKER, true)
  }

  /** `decodeKvMetadata` */
  function Decode(slot: Option<Slot>): Option<StoredMetadata> {
    if slot == None || slot.value.overflow then None
    else if slot.value.size.Some? then Some(StoredMetadata(slot.value.size.value, slot.value.http, slot.value.custom))
    else None
  }

  /** `parseMeta` */
  function Parse(sidecar: Sidecar): StoredMetadata {
    if sidecar.Serialized? then sidecar.meta else StoredMetadata(0, None, None)
  }

  function ObjectOf(body: Bytes, meta: StoredMetadata): Object {
    Object(body, if meta.size != 0 then meta.size else |body|, meta.http.OrElse(map[]), meta.custom.OrElse(map[]))
  }

  /** What a store that keeps its promise answers after this put. */
  function Kept(body: Bytes, meta: Metadata): Object {
    Object(body, |body|, meta.http.OrElse(map[]), meta.custom.OrElse(map[]))
  }

  /** `isOrphanCleanupEligible`, of the time a listing gives. */
  predicate Sweepable(uploadedAt: Option<Time>, read: Time -> int, now: int) {
    uploadedAt.Some? && read(uploadedAt.value) <= now - 86_400_000
  }

  /** `toUint8Array` of a stream: the pieces, one after another, in one buffer. */
  method ToBytes(pieces: seq<Bytes>) returns (merged: array<Byte>)
    ensures fresh(merged) && merged[..] == Bodies.Concat(pieces)
  {
    var total := 0;
    var i := 0;
    while i < |pieces|
      invariant 0 <= i <= |pieces| && total == |Bodies.Concat(pieces[..i])|
    {
      assert pieces[..i + 1] == pieces[..i] + [pieces[i]];
      Bodies.ConcatSnoc(pieces[..i], pieces[i]);
      total := total + |pieces[i]|;
      i := i + 1;
    }
    assert pieces[..i] == pieces;
    merged := new Byte[total](_ => 0);
    var offset := 0;
    i := 0;
    while i < |pieces|
      invariant 0 <= i <= |pieces| && offset == |Bodies.Concat(pieces[..i])| <= merged.Length
      invariant merged[..offset] == Bodies.Concat(pieces[..i])
    {
      assert pieces[..i + 1] == pieces[..i] + [pieces[i]];
      Bodies.ConcatSnoc(pieces[..i], pieces[i]);
      PrefixFits(pieces, i + 1);
      var piece := pieces[i];
      forall k | 0 <= k < |piece| {
        merged[offset + k] := piece[k];
      }
      assert merged[..offset + |piece|] == merged[..offset] + piece;
      offset := offset + |piece|;
      i := i + 1;
    }
    assert pieces[..i] == pieces;
  }

  lemma {:induction false} PrefixFits(pieces: seq<Bytes>, n: nat)
    requires n <= |pieces|
    ensures |Bodies.Concat(pieces[..n])| <= |Bodies.Concat(pieces)|
    decreases |pieces| - n
  {
    if n == |pieces| {
      assert pieces[..n] == pieces;
    } else {
      assert pieces[..n + 1] == pieces[..n] + [pieces[n]];
      Bodies.ConcatSnoc(pieces[..n], pieces[n]);
      PrefixFits(pieces, n + 1);
    }
  }

  // ------------------------------------------------------------------ KV

  function MetaOf(bodies: map<Key, Value>, sidecars: map<Key, Sidecar>, key: Key): StoredMetadata
    requires key in bodies
  {
    var decoded := Decode(bodies[key].slot);
    if decoded.Some? then decoded.value
    else if key in sidecars then Parse(sidecars[key])
    else StoredMetadata(|bodies[key].body|, None, None)
  }

  function ViewOf(bodies: map<Key, Value>, sidecars: map<Key, Sidecar>): map<Key, Object> {
    map k | k in bodies :: ObjectOf(bodies[k].body, MetaOf(bodies, sidecars, k))
  }

  /** Inline or in a sidecar, the metadata of a put is read back. */
  lemma EncodedIsRead(length: Slot -> nat, meta: StoredMetadata, now: Time)
    ensures var (slot, overflowed) := TryEncode(length, meta, now);
            if overflowed then Decode(Some(slot)) == None else Decode(Some(slot)) == Some(meta)
  {
  }

  lemma PutIsRead(length: Slot -> nat, bodies: map<Key, Value>, sidecars: map<Key, Sidecar>, key: Key, body: Bytes,
      meta: Metadata, now: Time)
    ensures var stored := StoredMetadata(|body|, meta.http, meta.custom);
            var (slot, overflowed) := TryEncode(length, stored, now);
            ViewOf(bodies[key := Value(body, Some(slot))], if overflowed then sidecars[key := Serialized(stored)]
                else sidecars)
            == ViewOf(bodies, sidecars)[key := Kept(body, meta)]
  {
    hide TryEncode, Decode;
    EncodedIsRead(length, StoredMetadata(|body|, meta.http, meta.custom), now);
  }

  /** As JSON text, neither the time alone nor the time with the whole record is longer than 1024. */
  predicate FitsInline(length: Slot -> nat, meta: StoredMetadata, uploadedAt: Time) {
    length(Slot(Some(uploadedAt), false, None, None, None)) <= 1024
    && length(Slot(Some(uploadedAt), false, Some(meta.size), meta.http, meta.custom)) <= 1024
  }

  /** The record is inline, with its time, if and only if it fits; otherwise the slot has no time and says so. */
  lemma OverflowsIff(length: Slot -> nat, meta: StoredMetadata, now: Time)
    ensures var (slot, overflowed) := TryEncode(length, meta, now);
            if FitsInline(length, meta, now) then
              !overflowed && slot == Slot(Some(now), false, Some(meta.size), meta.http, meta.custom)
            else overflowed && slot.overflow && slot.uploadedAt == Some("")
  {
  }

  class KvAttachmentStore {
    const length: Slot -> nat
    var bodies: map<Key, Value>
    var sidecars: map<Key, Sidecar>

    /** Any content: what older code wrote included. */
    constructor (length: Slot -> nat, bodies: map<Key, Value>, sidecars: map<Key, Sidecar>)
      ensures this.length == length && this.bodies == bodies && this.sidecars == sidecars
    {
      this.length, this.bodies, this.sidecars := length, bodies, sidecars;
    }

    /** What the store holds, as its readers see it. */
    function View(): map<Key, Object>
      reads this
    {
      ViewOf(bodies, sidecars)
    }

    method Put(key: Key, body: Bytes, meta: Metadata, now: Time) returns (answer: Answer)
      modifies this
      ensures answer == if |body| >= KV_VALUE_LIMIT then TooLarge else Answer.Stored
      ensures View() == if |body| >= KV_VALUE_LIMIT then old(View()) else old(View())[key := Kept(body, meta)]
      ensures |body| < KV_VALUE_LIMIT ==>
                var stored := StoredMetadata(|body|, meta.http, meta.custom);
                var fits := FitsInline(length, stored, now);
                key in bodies && bodies == old(bodies)[key := bodies[key]]
                && sidecars == (if fits then old(sidecars) else old(sidecars)[key := Serialized(stored)])
                && (now != "" ==> ListedAt(key) == if fits then Some(now) else None)
    {
      if |body| >= KV_VALUE_LIMIT {
        return TooLarge;
      }
      var stored := StoredMetadata(|body|, meta.http, meta.custom);
      PutIsRead(length, bodies, sidecars, key, body, meta, now);
      OverflowsIff(length, stored, now);
      hide ViewOf, Kept, TryEncode, FitsInline;
      var (encoded, overflowed) := TryEncode(length, stored, now);
      bodies := bodies[key := Value(body, Some(encoded))];
      if overflowed {
        sidecars := sidecars[key := Serialized(stored)];
      }
      answer := Answer.Stored;
    }

    method Get(key: Key) returns (found: Option<Object>)
      ensures found == if key in View() then Some(View()[key]) else None
    {
      if key !in bodies {
        return None;
      }
      var value := bodies[key];
      var meta := Decode(value.slot);
      if meta == None {
        if key in sidecars {
          meta := Some(Parse(sidecars[key]));
        } else {
          meta := Some(StoredMetadata(|value.body|, None, None));
        }
      }
      found := Some(ObjectOf(value.body, meta.value));
    }

    method Delete(key: Key)
      modifies this
      ensures View() == old(View()) - {key} && key !in sidecars
    {
      bodies := bodies - {key};
      sidecars := sidecars - {key};
    }

    /** The upload time a listing gives for a key; an empty one is as good as none. */
    function ListedAt(key: Key): Option<Time>
      reads this
      requires key in bodies
    {
      var slot := bodies[key].slot;
      if slot.Some? && slot.value.uploadedAt.Some? && slot.value.uploadedAt.value != ""
      then slot.value.uploadedAt else None
    }
  }

  /**
   An object whose metadata does not fit is listed without a time, so the orphan sweep never takes it; any other, after
   24 hours.
   */
  lemma OverflowIsNeverSwept(store: KvAttachmentStore, key: Key, meta: StoredMetadata, uploadedAt: Time,
      read: Time -> int, now: int)
    requires uploadedAt != "" && key in store.bodies
    requires store.bodies[key].slot == Some(TryEncode(store.length, meta, uploadedAt).0)
    ensures Sweepable(store.ListedAt(key), read, now)
            <==> FitsInline(store.length, meta, uploadedAt) && read(uploadedAt) <= now - 24 * 60 * 60 * 1000
  {
    OverflowsIff(store.length, meta, uploadedAt);
  }

  // ------------------------------------------------------------------ R2 with KV behind it

  lemma WithoutBoth(behind: map<Key, Object>, front: map<Key, Object>, key: Key)
    ensures (behind - {key}) + (front - {key}) == (behind + front) - {key}
  {
  }

  class R2WithKvFallback {
    var bucket: map<Key, Object>
    const fallback: KvAttachmentStore

    constructor (fallback: KvAttachmentStore)
      ensures this.fallback == fallback && View() == fallback.View()
    {
      this.bucket, this.fallback := map[], fallback;
    }

    function View(): map<Key, Object>
      reads this, fallback
    {
      fallback.View() + bucket
    }

    method Put(key: Key, body: Bytes, meta: Metadata)
      modifies this
      ensures View() == old(View())[key := Kept(body, meta)]
    {
      bucket := bucket[key := Kept(body, meta)];
    }

    method Get(key: Key) returns (found: Option<Object>)
      ensures found == if key in View() then Some(View()[key]) else None
    {
      if key in bucket {
        found := Some(bucket[key]);
      } else {
        found := fallback.Get(key);
      }
    }

    /** Both copies go, so a legacy object does not reappear from behind. */
    method Delete(key: Key)
      modifies this, fallback
      ensures View() == old(View()) - {key} && key !in fallback.View()
    {
      WithoutBoth(fallback.View(), bucket, key);
      bucket := bucket - {key};
      fallback.Delete(key);
    }
  }

  // ------------------------------------------------------------------ histories

  datatype Operation = DoPut(key: Key, body: Bytes, meta: Metadata) | DoGet(key: Key) | DoDelete(key: Key)

  type Transcript = (map<Key, Object>, seq<Option<Object>>)

  function Perform(before: Transcript, operation: Operation): Transcript {
    var (view, answers) := before;
    match operation
    case DoPut(key, body, meta) => (view[key := Kept(body, meta)], answers)
    case DoGet(key) => (view, answers + [if key in view then Some(view[key]) else None])
    case DoDelete(key) => (view - {key}, answers)
  }

  /** One map, and what its gets answer. */
  function Play(view: map<Key, Object>, operations: seq<Operation>): Transcript
    decreases |operations|
  {
    if operations == [] then (view, [])
    else Perform(Play(view, operations[..|operations| - 1]), operations[|operations| - 1])
  }

  /** Main result: over every history, R2 over any legacy KV content answers as one map does. */
  method RunComposite(store: R2WithKvFallback, operations: seq<Operation>) returns (answers: seq<Option<Object>>)
    modifies store, store.fallback
    ensures (store.View(), answers) == Play(old(store.View()), operations)
  {
    answers := [];
    var i := 0;
    while i < |operations|
      invariant 0 <= i <= |operations|
      invariant (store.View(), answers) == Play(old(store.View()), operations[..i])
    {
      assert operations[..i + 1][..i] == operations[..i];
      match operations[i] {
        case DoPut(key, body, meta) => store.Put(key, body, meta);
        case DoGet(key) =>
          var found := store.Get(key);
          answers := answers + [found];
        case DoDelete(key) => store.Delete(key);
      }
      i := i + 1;
    }
    assert operations[..i] == operations;
  }

  predicate IsRefused(operation: Operation) {
    operation.DoPut? && |operation.body| >= KV_VALUE_LIMIT
  }

  /** The operations the KV store takes: it refuses bodies of 25 MiB or more. */
  function Heard(operations: seq<Operation>): seq<Operation>
    decreases |operations|
  {
    if operations == [] then []
    else
      var last := operations[|operations| - 1];
      Heard(operations[..|operations| - 1]) + if IsRefused(last) then [] else [last]
  }

  method PerformKv(store: KvAttachmentStore, operation: Operation, now: Time, before: seq<Option<Object>>)
    returns (answers: seq<Option<Object>>)
    modifies store
    ensures (store.View(), answers)
            == if IsRefused(operation) then (old(store.View()), before)
                else Perform((old(store.View()), before), operation)
  {
    answers := before;
    match operation {
      case DoPut(key, body, meta) => var _ := store.Put(key, body, meta, now);
      case DoGet(key) =>
        var found := store.Get(key);
        answers := answers + [found];
      case DoDelete(key) => store.Delete(key);
    }
  }

  /** The same of the KV store alone, refused puts left out. */
  method RunKv(store: KvAttachmentStore, operations: seq<Operation>, now: Time) returns (answers: seq<Option<Object>>)
    modifies store
    ensures (store.View(), answers) == Play(old(store.View()), Heard(operations))
  {
    hide Perform, Heard, Play;
    answers := [];
    var i := 0;
    HeardNothing(store.View());
    assert operations[..0] == [];
    while i < |operations|
      invariant 0 <= i <= |operations|
      invariant (store.View(), answers) == Play(old(store.View()), Heard(operations[..i]))
    {
      HeardOneMore(old(store.View()), operations[..i], operations[i]);
      assert operations[..i + 1] == operations[..i] + [operations[i]];
      answers := PerformKv(store, operations[i], now, answers);
      i := i + 1;
    }
    assert operations[..i] == operations;
  }

  lemma HeardNothing(view: map<Key, Object>)
    ensures Play(view, Heard([])) == (view, [])
  {
  }

  lemma HeardOneMore(view: map<Key, Object>, operations: seq<Operation>, operation: Operation)
    ensures var before := Play(view, Heard(operations));
            Play(view, Heard(operations + [operation])) == if IsRefused(operation) then before
                else Perform(before, operation)
  {
    assert (operations + [operation])[..|operations|] == operations;
    if IsRefused(operation) {
      assert Heard(operations + [operation]) == Heard(operations);
    } else {
      assert (Heard(operations) + [operation])[..|Heard(operations)|] == Heard(operations);
    }
  }

  // ------------------------------------------------------------------ what a map promises

  /** The last put or delete of a key decides. */
  function Last(view: map<Key, Object>, operations: seq<Operation>, key: Key): Option<Object>
    decreases |operations|
  {
    if operations == [] then if key in view then Some(view[key]) else None
    else
      match operations[|operations| - 1]
      case DoPut(k, body, meta) =>
        if k == key then Some(Kept(body, meta)) else Last(view, operations[..|operations| - 1], key)
      case DoDelete(k) => if k == key then None else Last(view, operations[..|operations| - 1], key)
      case DoGet(_) => Last(view, operations[..|operations| - 1], key)
  }

  lemma {:induction false} PlayKeepsLast(view: map<Key, Object>, operations: seq<Operation>, key: Key)
    ensures var after := Play(view, operations).0;
            Last(view, operations, key) == if key in after then Some(after[key]) else None
    decreases |operations|
  {
    if operations != [] {
      PlayKeepsLast(view, operations[..|operations| - 1], key);
    }
  }
}
