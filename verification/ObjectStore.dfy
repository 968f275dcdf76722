/** Objects cut into chunks of one size, whatever the pieces they come in, and put
    together again. */
module ObjectStore {
  import opened Bytes
  import DataBuffer
  import Sha256
  import Sha256Spec

  type octet = Sha256Spec.octet

  datatype Info = Info(size: nat, chunks: nat, digest: seq<octet>)

  /** What comes of reading an object. `Waiting`: the reader waits for a message
      that never comes. */
  datatype Fetched = Data(bytes: seq<octet>) | Corrupt | Waiting

  /** The largest size that is neither above the one asked for (0: 128 KiB) nor above
      what the server takes (0: 1 KiB). */
  function MaxChunk(asked: nat, maxPayload: nat): (n: nat)
    ensures 0 < n && (asked > 0 ==> n <= asked) && (maxPayload > 0 ==> n <= maxPayload)
    ensures asked == 0 ==> n <= 131072
    ensures maxPayload == 0 ==> n <= 1024
    ensures n < asked || (asked == 0 && n < 131072) ==> n == if maxPayload == 0 then 1024 else maxPayload
  {
    var payload := if maxPayload == 0 then 1024 else maxPayload;
    var chunk := if asked == 0 then 128 * 1024 else asked;
    if chunk > payload then payload else chunk
  }

  /** The chunks of `data`: pieces of `max` octets, and what is left over. */
  function Chunks(data: seq<octet>, max: nat): seq<seq<octet>>
    requires max > 0
  {
    if data == [] then []
    else if |data| <= max then [data]
    else [data[..max]] + Chunks(data[max..], max)
  }

  ghost predicate AllOf(pieces: seq<seq<octet>>, size: nat) {
    forall i :: 0 <= i < |pieces| ==> |pieces[i]| == size
  }

  /** Nothing is lost or moved. */
  lemma {:induction false} ChunksJoin(data: seq<octet>, max: nat)
    requires max > 0
    ensures Flatten(Chunks(data, max)) == data
  {
    if |data| > max {
      ChunksJoin(data[max..], max);
      assert data == data[..max] + data[max..];
    } else if data != [] {
      assert Flatten([data]) == data;
    }
  }

  /** Each chunk is nonempty, and all but the last have the full size. */
  lemma {:induction false} ChunkSizes(data: seq<octet>, max: nat)
    requires max > 0
    ensures var c := Chunks(data, max);
            && (forall i :: 0 <= i < |c| ==> 0 < |c[i]| <= max)
            && (forall i :: 0 <= i < |c| - 1 ==> |c[i]| == max)
  {
    if |data| > max {
      ChunkSizes(data[max..], max);
      FirstChunk(data, max);
      hide Chunks;
      var c, rest := Chunks(data, max), Chunks(data[max..], max);
      assert c[0] == data[..max] && forall i :: 1 <= i < |c| ==> c[i] == rest[i - 1];
    }
  }

  lemma FirstChunk(data: seq<octet>, max: nat)
    requires max > 0 && |data| > max
    ensures Chunks(data, max) == [data[..max]] + Chunks(data[max..], max) && Chunks(data[max..], max) != []
  {
  }

  /** Their number is the size divided by the size of a chunk, rounded up. */
  lemma {:induction false} ChunkCount(data: seq<octet>, max: nat)
    requires max > 0
    ensures max * |Chunks(data, max)| - max < |data| <= max * |Chunks(data, max)|
  {
    if |data| > max {
      ChunkCount(data[max..], max);
      var k := |Chunks(data[max..], max)|;
      assert max * (k + 1) == max * k + max;
    }
  }

  /** Full pieces with something behind them are the first chunks of the whole. */
  lemma {:induction false} FullPiecesFirst(pieces: seq<seq<octet>>, rest: seq<octet>, max: nat)
    requires max > 0 && AllOf(pieces, max) && rest != []
    ensures Chunks(Flatten(pieces) + rest, max) == pieces + Chunks(rest, max)
  {
    hide Chunks, Flatten;
    if pieces == [] {
      FlattenNone<octet>();
      assert [] + rest == rest && [] + Chunks(rest, max) == Chunks(rest, max);
    } else {
      var first, more := pieces[0], pieces[1..];
      assert AllOf(more, max);
      FlattenHead(pieces);
      FullPiecesFirst(more, rest, max);
      PieceFirst(first, Flatten(more) + rest, max);
      Regroup(first, Flatten(more), rest);
      Regroup([first], more, Chunks(rest, max));
      assert pieces == [first] + more;
    }
  }

  lemma PieceFirst(piece: seq<octet>, tail: seq<octet>, max: nat)
    requires 0 < max == |piece| && tail != []
    ensures Chunks(piece + tail, max) == [piece] + Chunks(tail, max)
  {
    hide Chunks;
    FirstChunk(piece + tail, max);
    assert (piece + tail)[..max] == piece && (piece + tail)[max..] == tail;
  }

  /** Publishes and hashes one more chunk. */
  method Publish(db: DataBuffer.Buffer<octet>, sha: Sha256.Hasher, published: seq<seq<octet>>, n: Option<nat>)
    returns (more: seq<seq<octet>>, length: nat)
    requires db.Valid() && sha.Valid() && !sha.finalized && sha.msg == Flatten(published)
    modifies db, sha, sha.blocks
    ensures db.Valid() && sha.Valid() && !sha.finalized && sha.msg == Flatten(more)
    ensures |more| == |published| + 1 && more[..|published|] == published
    ensures more[|published|] + db.Contents() == old(db.Contents())
    ensures length == |more[|published|]|
         == if n.None? || n.value > |old(db.Contents())| then |old(db.Contents())| else n.value
    ensures Flatten(more) + db.Contents() == Flatten(published) + old(db.Contents())
    ensures |Flatten(more)| == |Flatten(published)| + length
    ensures n.None? ==> more == published + [old(db.Contents())] && db.Contents() == []
  {
    hide Sha256.Hasher.Valid;
    var payload := db.Drain(n);
    sha.Update(payload);
    FlattenSnoc(published, payload);
    more, length := published + [payload], |payload|;
  }

  /** Publishes all but what fits into one chunk. */
  method PublishFull(db: DataBuffer.Buffer<octet>, sha: Sha256.Hasher, published: seq<seq<octet>>, max: nat)
    returns (more: seq<seq<octet>>, chunks: nat, size: nat)
    requires max > 0 && AllOf(published, max) && (published != [] ==> db.Contents() != [])
    requires db.Valid() && sha.Valid() && !sha.finalized && sha.msg == Flatten(published)
    modifies db, sha, sha.blocks
    ensures db.Valid() && sha.Valid() && !sha.finalized && sha.msg == Flatten(more)
    ensures AllOf(more, max) && |db.Contents()| <= max && (more != [] ==> db.Contents() != [])
    ensures Flatten(more) + db.Contents() == Flatten(published) + old(db.Contents())
    ensures chunks == |more| - |published| && size == |Flatten(more)| - |Flatten(published)|
  {
    hide Sha256.Hasher.Valid;
    more, chunks, size := published, 0, 0;
    while db.byteLength > max
      modifies db, sha, sha.blocks
      invariant db.Valid() && sha.Valid() && !sha.finalized && sha.msg == Flatten(more)
      invariant AllOf(more, max) && (more != [] ==> db.Contents() != [])
      invariant Flatten(more) + db.Contents() == Flatten(published) + old(db.Contents())
      invariant chunks == |more| - |published| && size == |Flatten(more)| - |Flatten(published)|
      decreases db.byteLength
    {
      var before := more;
      chunks, size := chunks + 1, size + max;
      var length;
      more, length := Publish(db, sha, before, Some(max));
    }
  }

  /** Cuts what is read into chunks, publishes and hashes them. */
  method Put(inputs: seq<seq<octet>>, asked: nat, maxPayload: nat)
    returns (published: seq<seq<octet>>, info: Info)
    ensures published == Chunks(Flatten(inputs), MaxChunk(asked, maxPayload))
    ensures info == Info(|Flatten(inputs)|, |published|, Sha256Spec.Digest(Flatten(inputs)))
  {
    hide Sha256Spec.Digest, Sha256.Hasher.Valid, MaxChunk, Flatten, Chunks;
    var max := MaxChunk(asked, maxPayload);
    var db := new DataBuffer.Buffer<octet>();
    var sha := new Sha256.Hasher();
    published := [];
    assert Flatten<octet>([]) == [] by { FlattenNone<octet>(); }
    var chunks, size := 0, 0;
    for i := 0 to |inputs|
      modifies db, sha, sha.blocks
      invariant db.Valid() && sha.Valid() && !sha.finalized && sha.msg == Flatten(published)
      invariant AllOf(published, max) && |db.Contents()| <= max && (published != [] ==> db.Contents() != [])
      invariant Flatten(published) + db.Contents() == Flatten(inputs[..i]) && size == |Flatten(published)|
      invariant chunks == |published|
    {
      assert inputs[..i + 1] == inputs[..i] + [inputs[i]];
      FlattenSnoc(inputs[..i], inputs[i]);
      db.Fill(inputs[i], []);
      var more, length;
      published, more, length := PublishFull(db, sha, published, max);
      chunks, size := chunks + more, size + length;
    }
    assert inputs[..|inputs|] == inputs;
    var more, length;
    published, more, length := PublishRest(db, sha, published, max);
    chunks, size := chunks + more, size + length;
    var digest := sha.Digest();
    info := Info(size, chunks, digest);
  }

  /** Publishes what is left, if there is anything. */
  method PublishRest(db: DataBuffer.Buffer<octet>, sha: Sha256.Hasher, full: seq<seq<octet>>, max: nat)
    returns (published: seq<seq<octet>>, chunks: nat, size: nat)
    requires max > 0 && AllOf(full, max) && |db.Contents()| <= max && (full != [] ==> db.Contents() != [])
    requires db.Valid() && sha.Valid() && !sha.finalized && sha.msg == Flatten(full)
    modifies db, sha, sha.blocks
    ensures sha.Valid() && !sha.finalized && sha.msg == Flatten(published) == Flatten(full) + old(db.Contents())
    ensures published == Chunks(sha.msg, max)
    ensures chunks == |published| - |full| && size == |Flatten(published)| - |Flatten(full)|
  {
    hide Sha256.Hasher.Valid, Chunks;
    ghost var held := db.Contents();
    published, chunks, size := full, 0, 0;
    if db.byteLength > 0 {
      FullPiecesFirst(full, held, max);
      OneChunk(held, max);
      published, size := Publish(db, sha, full, None);
      chunks := 1;
    } else {
      OneChunk(held, max);
      assert held == [] && Flatten(full) + held == Flatten(full);
    }
  }

  lemma OneChunk(data: seq<octet>, max: nat)
    requires |data| <= max && max > 0
    ensures Chunks(data, max) == if data == [] then [] else [data]
  {
  }

  lemma FlattenNone<T>()
    ensures Flatten<T>([]) == []
  {
  }

  /** Takes in one message. */
  method Receive(out: DataBuffer.Buffer<octet>, sha: Sha256.Hasher, data: seq<octet>)
    requires out.Valid() && sha.Valid() && !sha.finalized && out.Contents() == sha.msg
    modifies out, sha, sha.blocks
    ensures out.Valid() && sha.Valid() && !sha.finalized && out.Contents() == sha.msg == old(sha.msg) + data
  {
    hide Sha256.Hasher.Valid;
    if |data| > 0 {
      sha.Update(data);
      out.Fill(data, []);
    }
  }

  /** The data of the messages stored for an object, if it hashes to the digest of its
      information. Hashing and handing on go message by message. */
  method Get(info: Info, stored: seq<seq<octet>>) returns (fetched: Fetched)
    ensures fetched
         == if info.size == 0 then Data([])
            else if stored == [] then Waiting
            else if Sha256Spec.Digest(Flatten(stored)) == info.digest then Data(Flatten(stored))
            else Corrupt
  {
    hide Sha256Spec.Digest, Sha256.Hasher.Valid;
    if info.size == 0 {
      return Data([]);
    }
    var out := new DataBuffer.Buffer<octet>();
    var sha := new Sha256.Hasher();
    for i := 0 to |stored|
      modifies out, sha, sha.blocks
      invariant out.Valid() && sha.Valid() && !sha.finalized
      invariant out.Contents() == sha.msg == Flatten(stored[..i])
      invariant i == |stored| ==> stored == []
    {
      assert stored[..i + 1] == stored[..i] + [stored[i]];
      FlattenSnoc(stored[..i], stored[i]);
      Receive(out, sha, stored[i]);
      var pending := |stored| - 1 - i;
      if pending == 0 {
        assert stored[..|stored|] == stored;
        assert sha.msg == Flatten(stored);
        var digest := sha.Digest();
        if digest != info.digest {
          return Corrupt;
        }
        var bytes := out.Drain(None);
        return Data(bytes);
      }
    }
    fetched := Waiting;
  }

  /** What is put is what comes back, however it was divided into inputs. */
  method PutThenGet(inputs: seq<seq<octet>>, asked: nat, maxPayload: nat) returns (fetched: Fetched)
    ensures fetched == Data(Flatten(inputs))
  {
    hide Sha256Spec.Digest, MaxChunk;
    var stored, info := Put(inputs, asked, maxPayload);
    ChunksJoin(Flatten(inputs), MaxChunk(asked, maxPayload));
    fetched := Get(info, stored);
  }
}
