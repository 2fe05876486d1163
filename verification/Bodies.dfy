/** Attachment bodies: how file-catalog.ts cuts them in chunks, digests them and compares them. */
module Bodies {
  import opened Words
  import opened Blocks
  import Md5Spec
  import Md5

  /** A buffer is read as one chunk; a stream (or a Blob's stream) as whatever pieces arrive. */
  datatype Body = Buffered(bytes: Bytes) | Stream(pieces: seq<Bytes>)

  function Concat(chunks: seq<Bytes>): Bytes {
    if chunks == [] then [] else chunks[0] + Concat(chunks[1..])
  }

  function Content(body: Body): Bytes {
    match body
    case Buffered(bytes) => bytes
    case Stream(pieces) => Concat(pieces)
  }

  function NonEmpty(pieces: seq<Bytes>): seq<Bytes> {
    if pieces == [] then []
    else (if pieces[0] == [] then [] else [pieces[0]]) + NonEmpty(pieces[1..])
  }

  /** file-catalog.ts `bodyChunks`: a stream never yields an empty chunk, a buffer may. */
  function BodyChunks(body: Body): seq<Bytes> {
    match body
    case Buffered(bytes) => [bytes]
    case Stream(pieces) => NonEmpty(pieces)
  }

  lemma {:induction false} ConcatNonEmpty(pieces: seq<Bytes>)
    ensures Concat(NonEmpty(pieces)) == Concat(pieces)
    ensures forall c :: c in NonEmpty(pieces) ==> c != []
  {
    if pieces != [] {
      ConcatNonEmpty(pieces[1..]);
      if pieces[0] == [] {
        assert NonEmpty(pieces) == NonEmpty(pieces[1..]);
      } else {
        assert NonEmpty(pieces)[1..] == NonEmpty(pieces[1..]);
      }
    }
  }

  lemma ChunksCarryContent(body: Body)
    ensures Concat(BodyChunks(body)) == Content(body)
  {
    match body
    case Buffered(bytes) => assert [bytes][1..] == [];
    case Stream(pieces) => ConcatNonEmpty(pieces);
  }

  lemma {:induction false} ConcatSnoc(chunks: seq<Bytes>, chunk: Bytes)
    ensures Concat(chunks + [chunk]) == Concat(chunks) + chunk
  {
    if chunks == [] {
      assert [chunk][1..] == [];
    } else {
      assert (chunks + [chunk])[1..] == chunks[1..] + [chunk];
      ConcatSnoc(chunks[1..], chunk);
    }
  }

  /** file-catalog.ts `md5Hex`: however the body is cut up, the digest is that of its content. */
  method Md5Hex(body: Body) returns (digest: string)
    requires 8 * |Content(body)| < 0x20_0000_0000_0000
    ensures digest == Md5Spec.Digest(Content(body))
  {
    hide Md5Spec.Digest, Md5.Md5.Streaming, Md5.Md5.Absorbed;
    var chunks := BodyChunks(body);
    var md5 := new Md5.Md5();
    var i := 0;
    assert chunks[..0] == [] && Concat([]) == [];
    hide Concat, Content;
    while i < |chunks|
      invariant 0 <= i <= |chunks|
      invariant fresh(md5) && fresh(md5.state) && fresh(md5.pending)
      invariant md5.Valid() && !md5.finished && md5.Absorbed() == Concat(chunks[..i])
    {
      ConcatSnoc(chunks[..i], chunks[i]);
      assert chunks[..i + 1] == chunks[..i] + [chunks[i]];
      var _ := md5.Update(chunks[i]);
      i := i + 1;
    }
    assert chunks[..i] == chunks;
    ChunksCarryContent(body);
    var r := md5.HexDigest();
    digest := r.digest;
  }

  /** How many empty chunks end the list. */
  function TrailingEmpties(chunks: seq<Bytes>): nat {
    if chunks == [] || chunks[|chunks| - 1] != [] then 0
    else 1 + TrailingEmpties(chunks[..|chunks| - 1])
  }

  /** Dropping the first chunk loses a trailing empty one only if every chunk is empty. */
  lemma {:induction false} TrailingAfterFirst(chunks: seq<Bytes>)
    requires chunks != []
    ensures TrailingEmpties(chunks) == TrailingEmpties(chunks[1..]) + if Concat(chunks) == [] then 1 else 0
  {
    var n := |chunks| - 1;
    ConcatSnoc(chunks[..n], chunks[n]);
    assert chunks == chunks[..n] + [chunks[n]];
    if n == 0 {
      assert chunks[1..] == [];
    } else if chunks[n] == [] {
      TrailingAfterFirst(chunks[..n]);
      assert chunks[..n][1..] == chunks[1..][..n - 1];
    }
  }

  /** What is still unread on the two sides will compare equal. */
  ghost predicate Match(l: Bytes, ls: seq<Bytes>, r: Bytes, rs: seq<Bytes>) {
    l + Concat(ls) == r + Concat(rs) && TrailingEmpties(ls) == TrailingEmpties(rs)
  }

  lemma FetchLeft(ls: seq<Bytes>, r: Bytes, rs: seq<Bytes>)
    requires ls != [] && r != []
    ensures Match([], ls, r, rs) <==> Match(ls[0], ls[1..], r, rs)
  {
    TrailingAfterFirst(ls);
    assert [] + Concat(ls) == ls[0] + Concat(ls[1..]);
  }

  lemma FetchRight(l: Bytes, ls: seq<Bytes>, rs: seq<Bytes>)
    requires rs != [] && l != []
    ensures Match(l, ls, [], rs) <==> Match(l, ls, rs[0], rs[1..])
  {
    TrailingAfterFirst(rs);
    assert [] + Concat(rs) == rs[0] + Concat(rs[1..]);
  }

  lemma FetchBoth(ls: seq<Bytes>, rs: seq<Bytes>)
    requires ls != [] && rs != []
    ensures Match([], ls, [], rs) <==> Match(ls[0], ls[1..], rs[0], rs[1..])
  {
    TrailingAfterFirst(ls);
    TrailingAfterFirst(rs);
    assert [] + Concat(ls) == ls[0] + Concat(ls[1..]);
    assert [] + Concat(rs) == rs[0] + Concat(rs[1..]);
  }

  lemma OneSideDone(l: Bytes, ls: seq<Bytes>, r: Bytes, rs: seq<Bytes>)
    requires l == [] && ls == []
    ensures Match(l, ls, r, rs) <==> r == [] && rs == []
    ensures Match(r, rs, l, ls) <==> r == [] && rs == []
  {
    if rs != [] && Concat(rs) == [] {
      var n := |rs| - 1;
      ConcatSnoc(rs[..n], rs[n]);
      assert rs == rs[..n] + [rs[n]];
    }
  }

  /** The inner loop of `bodiesEqual`. */
  method SameStart(a: Bytes, b: Bytes, length: nat) returns (same: bool)
    requires length <= |a| && length <= |b|
    ensures same <==> a[..length] == b[..length]
  {
    var index := 0;
    while index < length
      invariant 0 <= index <= length && a[..index] == b[..index]
    {
      if a[index] != b[index] {
        assert a[..length][index] != b[..length][index];
        return false;
      }
      index := index + 1;
    }
    return true;
  }

  /**
   file-catalog.ts `bodiesEqual`.  It fetches a chunk from each side whenever that side is used
   up and stops when either runs out, so besides the bytes it counts trailing empty chunks.
   */
  method ChunksEqual(left: seq<Bytes>, right: seq<Bytes>) returns (same: bool)
    ensures same <==> Concat(left) == Concat(right) && TrailingEmpties(left) == TrailingEmpties(right)
  {
    var ls, rs := left, right;
    var leftRest: Bytes, rightRest: Bytes := [], [];
    assert [] + Concat(left) == Concat(left) && [] + Concat(right) == Concat(right);
    while true
      invariant Match(leftRest, ls, rightRest, rs)
                <==> Concat(left) == Concat(right) && TrailingEmpties(left) == TrailingEmpties(right)
      decreases |leftRest| + |Concat(ls)| + |rightRest| + |Concat(rs)| + |ls| + |rs|
    {
      var leftDone, rightDone := leftRest == [] && ls == [], rightRest == [] && rs == [];
      if leftDone || rightDone {
        if leftDone {
          OneSideDone(leftRest, ls, rightRest, rs);
        } else {
          OneSideDone(rightRest, rs, leftRest, ls);
        }
        return leftDone == rightDone;
      }
      if leftRest == [] && rightRest == [] {
        FetchBoth(ls, rs);
        leftRest, ls, rightRest, rs := ls[0], ls[1..], rs[0], rs[1..];
      } else if leftRest == [] {
        FetchLeft(ls, rightRest, rs);
        leftRest, ls := ls[0], ls[1..];
      } else if rightRest == [] {
        FetchRight(leftRest, ls, rs);
        rightRest, rs := rs[0], rs[1..];
      }
      var length := if |leftRest| < |rightRest| then |leftRest| else |rightRest|;
      DropEqualPrefix(leftRest, Concat(ls), rightRest, Concat(rs), length);
      var start := SameStart(leftRest, rightRest, length);
      if !start {
        return false;
      }
      leftRest, rightRest := leftRest[length..], rightRest[length..];
    }
  }

  lemma DropEqualPrefix(a: Bytes, x: Bytes, b: Bytes, y: Bytes, n: nat)
    requires n <= |a| && n <= |b|
    ensures a + x == b + y ==> a[..n] == b[..n]
    ensures a[..n] == b[..n] ==> (a + x == b + y <==> a[n..] + x == b[n..] + y)
  {
    assert a + x == a[..n] + (a[n..] + x);
    assert b + y == b[..n] + (b[n..] + y);
    assert a + x == b + y ==> (a + x)[n..] == (b + y)[n..] && (a + x)[..n] == (b + y)[..n];
  }

  predicate EmptyBuffer(body: Body) {
    body == Buffered([])
  }

  lemma TrailingOfBody(body: Body)
    ensures TrailingEmpties(BodyChunks(body)) == if EmptyBuffer(body) then 1 else 0
  {
    match body
    case Buffered(bytes) => assert [bytes][..0] == [];
    case Stream(pieces) =>
      ConcatNonEmpty(pieces);
      var chunks := NonEmpty(pieces);
      assert chunks != [] ==> chunks[|chunks| - 1] in chunks;
  }

  /** Two bodies compare equal exactly when their bytes agree, save an empty buffer and an empty stream. */
  method BodiesEqual(left: Body, right: Body) returns (same: bool)
    ensures same <==> Content(left) == Content(right) && (EmptyBuffer(left) <==> EmptyBuffer(right))
  {
    same := ChunksEqual(BodyChunks(left), BodyChunks(right));
    ChunksCarryContent(left);
    ChunksCarryContent(right);
    TrailingOfBody(left);
    TrailingOfBody(right);
  }
}
