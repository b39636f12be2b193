/** Streaming with a running digest: `_hash_file` and the bounded download.
    The hash is a parameter; an incremental hasher is modelled by the bytes fed to it so far. */
module Transfers {
  import opened Wrappers
  import opened Eviction

  type Hash = seq<Byte> -> Digest

  datatype Hashed = Hashed(size: nat, digest: Digest)

  function Flatten(chunks: seq<seq<Byte>>): seq<Byte> {
    if chunks == [] then [] else Flatten(chunks[..|chunks| - 1]) + chunks[|chunks| - 1]
  }

  lemma {:induction false} FlattenAppend(chunks: seq<seq<Byte>>, chunk: seq<Byte>)
    ensures Flatten(chunks + [chunk]) == Flatten(chunks) + chunk
  {
    assert (chunks + [chunk])[..|chunks|] == chunks;
  }

  lemma {:induction false} FlattenGrows(chunks: seq<seq<Byte>>, n: nat)
    requires n <= |chunks|
    ensures Flatten(chunks[..n]) <= Flatten(chunks)
    decreases |chunks| - n
  {
    if n == |chunks| {
      assert chunks[..n] == chunks;
    } else {
      FlattenGrows(chunks, n + 1);
      assert chunks[..n + 1][..n] == chunks[..n];
    }
  }

  const CHUNK: nat := 1024 * 1024

  /** Reads the file in chunks; fails as soon as the bytes read exceed the bound. */
  method HashFile(content: seq<Byte>, maximum: nat, hash: Hash) returns (r: Outcome<Hashed>)
    ensures r == if |content| <= maximum then Ok(Hashed(|content|, hash(content))) else Failed
  {
    var fed: seq<Byte> := [];
    var size := 0;
    while size < |content|
      invariant size <= |content| && size == |fed| && fed == content[..size]
      invariant size <= maximum
    {
      var chunk := content[size..if size + CHUNK <= |content| then size + CHUNK else |content|];
      size := size + |chunk|;
      if size > maximum {
        return Failed;
      }
      fed := fed + chunk;
    }
    assert content[..size] == content;
    r := Ok(Hashed(size, hash(fed)));
  }

  /** The response the server sends: a Content-Length, which may be absent or no number at all, and the
      chunks read up to the end. */
  datatype Response = Response(length: Option<Outcome<int>>, body: seq<seq<Byte>>)

  /** The header, if there is one, says what the descriptor says. */
  predicate LengthAgrees(response: Response, declared: nat) {
    response.length == None || response.length == Some(Ok(declared))
  }

  /** The download writes exactly the body, and succeeds exactly when the header is absent or agrees
      with the descriptor and the body stays within both the declared size and the bound. */
  method Download(response: Response, declared: nat, maximum: nat, hash: Hash)
    returns (r: Outcome<Hashed>, written: seq<Byte>)
    ensures var body := Flatten(response.body);
      && written <= body && |written| <= declared && |written| <= maximum
      && (r.Ok? <==> LengthAgrees(response, declared) && |body| <= declared && |body| <= maximum)
      && (r.Ok? ==> written == body && r.value == Hashed(|body|, hash(body)))
  {
    written := [];
    if response.length.Some? {
      var length := response.length.value;
      if length.Failed? || length.value != declared {
        return Failed, written;
      }
    }
    var received := 0;
    var i := 0;
    while i < |response.body|
      invariant i <= |response.body|
      invariant written == Flatten(response.body[..i]) && received == |written|
      invariant received <= declared && received <= maximum
    {
      var chunk := response.body[i];
      received := received + |chunk|;
      assert response.body[..i + 1][..i] == response.body[..i];
      FlattenGrows(response.body, i);
      FlattenGrows(response.body, i + 1);
      if received > declared || received > maximum {
        return Failed, written;
      }
      written := written + chunk;
      i := i + 1;
    }
    assert response.body[..i] == response.body;
    r := Ok(Hashed(received, hash(written)));
  }
}
