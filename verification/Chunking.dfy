/** Cutting a sequence into consecutive chunks of one size, the last one possibly short. */
module Chunking {

  function Chunks<T>(s: seq<T>, n: nat): seq<seq<T>>
    requires n >= 1
    decreases |s|
  {
    if s == [] then [] else if |s| <= n then [s] else [s[..n]] + Chunks(s[n..], n)
  }

  /** The chunks that are complete. */
  function FullChunks<T>(s: seq<T>, n: nat): seq<seq<T>>
    requires n >= 1
    decreases |s|
  {
    if |s| < n then [] else [s[..n]] + FullChunks(s[n..], n)
  }

  /** What follows the last complete chunk. */
  function Remainder<T>(s: seq<T>, n: nat): (r: seq<T>)
    requires n >= 1
    ensures |r| < n
    decreases |s|
  {
    if |s| < n then s else Remainder(s[n..], n)
  }

  function Flatten<T>(chunks: seq<seq<T>>): seq<T> {
    if chunks == [] then [] else chunks[0] + Flatten(chunks[1..])
  }

  /** All chunks but the last have size n, and the last one has between 1 and n elements. */
  predicate Cut<T>(chunks: seq<seq<T>>, n: nat) {
    forall j :: 0 <= j < |chunks| ==>
      if j < |chunks| - 1 then |chunks[j]| == n else 1 <= |chunks[j]| <= n
  }

  lemma {:induction false} ChunksCut<T>(s: seq<T>, n: nat)
    requires n >= 1
    ensures Flatten(Chunks(s, n)) == s && Cut(Chunks(s, n), n)
    ensures Chunks(s, n) == [] <==> s == []
    decreases |s|
  {
    if |s| > n {
      var rest := Chunks(s[n..], n);
      ChunksCut(s[n..], n);
      assert s == s[..n] + s[n..];
      assert Chunks(s, n)[1..] == rest;
      assert Cut(Chunks(s, n), n) by {
        assert forall j :: 1 <= j <= |rest| ==> Chunks(s, n)[j] == rest[j - 1];
      }
    } else if s != [] {
      assert Chunks(s, n)[1..] == [];
    }
  }

  lemma {:induction false} CutIsChunks<T>(chunks: seq<seq<T>>, n: nat)
    requires n >= 1 && Cut(chunks, n)
    ensures chunks == Chunks(Flatten(chunks), n)
    decreases |chunks|
  {
    if chunks != [] {
      var rest := chunks[1..];
      assert Cut(rest, n) by {
        assert forall j :: 0 <= j < |rest| ==> rest[j] == chunks[j + 1];
      }
      CutIsChunks(rest, n);
      if rest != [] {
        assert |rest[0]| >= 1 by {
          assert rest[0] == chunks[1];
        }
        assert |chunks[0]| == n && |Flatten(rest)| >= 1;
        assert Flatten(chunks)[..n] == chunks[0] && Flatten(chunks)[n..] == Flatten(rest);
      } else {
        assert Flatten(chunks) == chunks[0] && chunks == [chunks[0]];
      }
    }
  }

  /** Chunks(s, n) is the one way to cut s. */
  lemma ChunksUnique<T>(s: seq<T>, n: nat, chunks: seq<seq<T>>)
    requires n >= 1
    ensures Flatten(chunks) == s && Cut(chunks, n) <==> chunks == Chunks(s, n)
  {
    ChunksCut(s, n);
    if Cut(chunks, n) {
      CutIsChunks(chunks, n);
    }
  }

  lemma {:induction false} ChunksSplit<T>(s: seq<T>, n: nat)
    requires n >= 1
    ensures Chunks(s, n) == FullChunks(s, n) + (if Remainder(s, n) == [] then [] else [Remainder(s, n)])
    decreases |s|
  {
    if |s| >= n {
      ChunksSplit(s[n..], n);
      if |s| == n {
        assert s[..n] == s && s[n..] == [];
      }
    }
  }

  /** One more element either completes a chunk or joins the remainder. */
  lemma {:induction false} AppendOne<T>(s: seq<T>, n: nat, x: T)
    requires n >= 1
    ensures var r := Remainder(s, n) + [x];
            if |r| == n then FullChunks(s + [x], n) == FullChunks(s, n) + [r] && Remainder(s + [x], n) == []
            else FullChunks(s + [x], n) == FullChunks(s, n) && Remainder(s + [x], n) == r
    decreases |s|
  {
    if |s| < n {
      if |s| + 1 == n {
        assert (s + [x])[..n] == s + [x] && (s + [x])[n..] == [];
      }
    } else {
      assert (s + [x])[..n] == s[..n] && (s + [x])[n..] == s[n..] + [x];
      AppendOne(s[n..], n, x);
    }
  }
}
