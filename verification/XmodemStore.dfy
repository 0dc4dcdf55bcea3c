// Reassembly of an image from the blocks of an XMODEM transfer.
module XmodemStore {

  import opened Bytes
  import opened BootImage

  const BLOCK_SIZE := 128
  const PADDING: Byte := 0x1A

  // The block may follow the blocks received so far: the header in front is good, the image is
  // not complete yet, and what comes after its end is padding.
  ghost predicate Storable(received: seq<Byte>, block: seq<Byte>, dst: nat) {
    var all := received + block;
    && HasImage(all, dst)
    && (received != [] ==> |received| < ImageSize(all, dst))
    && forall j :: |received| <= j < |all| && j >= ImageSize(all, dst) ==> all[j] == PADDING
  }

  function Stored(s: seq<Byte>, dst: nat): nat
    requires HasImage(s, dst)
  {
    if |s| < ImageSize(s, dst) then |s| else ImageSize(s, dst)
  }

  // Address a is one that a byte of s belongs at.
  predicate Covers(s: seq<Byte>, dst: nat, a: nat)
    requires HasImage(s, dst)
  {
    dst <= a < dst + Stored(s, dst) - HEADER_SIZE
  }

  function ByteFor(s: seq<Byte>, dst: nat, a: nat): Byte
    requires HasImage(s, dst) && Covers(s, dst, a)
  {
    s[HEADER_SIZE + a - dst]
  }

  // What memory holds once s has come in: the image behind its header, cut at its end.
  function Loaded(s: seq<Byte>, dst: nat): map<nat, Byte> {
    if !HasImage(s, dst) then map[]
    else map a: nat | dst <= a < dst + Stored(s, dst) - HEADER_SIZE && Covers(s, dst, a) :: ByteFor(s, dst, a)
  }

  // Every write lies in the window of the declared image, which ends below the load limit.
  lemma WritesInWindow(s: seq<Byte>, dst: nat, a: nat)
    requires HasImage(s, dst) && a in Loaded(s, dst)
    ensures dst <= a < dst + ImageSize(s, dst) - HEADER_SIZE <= LOAD_LIMIT
  {
  }

  lemma InWindow(s: seq<Byte>, dst: nat)
    ensures forall a <- Loaded(s, dst) :: dst <= a < LOAD_LIMIT
  {
    if HasImage(s, dst) {
      forall a <- Loaded(s, dst) ensures dst <= a < LOAD_LIMIT {
        WritesInWindow(s, dst, a);
      }
    }
  }

  lemma LoadedOneMore(s: seq<Byte>, b: Byte, dst: nat)
    requires HasImage(s, dst)
    ensures HasImage(s + [b], dst) && ImageSize(s + [b], dst) == ImageSize(s, dst)
    ensures Loaded(s + [b], dst) ==
            if |s| < ImageSize(s, dst) then Loaded(s, dst)[dst + |s| - HEADER_SIZE := b] else Loaded(s, dst)
  {
    assert (s + [b])[..HEADER_SIZE] == s[..HEADER_SIZE];
    ImageOfPrefix(s, s + [b], dst);
    var before, after := Loaded(s, dst), Loaded(s + [b], dst);
    forall a | a in before ensures a in after && after[a] == before[a] {
      assert Covers(s + [b], dst, a);
    }
    forall a | a in after ensures a in before || (|s| < ImageSize(s, dst) && a == dst + |s| - HEADER_SIZE) {
      assert Covers(s + [b], dst, a);
      assert a != dst + |s| - HEADER_SIZE ==> Covers(s, dst, a);
    }
    assert |s| < ImageSize(s, dst) ==> Covers(s + [b], dst, dst + |s| - HEADER_SIZE);
  }

  lemma LoadedHeader(s: seq<Byte>, dst: nat)
    requires |s| <= HEADER_SIZE
    ensures Loaded(s, dst) == map[]
  {
    assert forall a :: a !in Loaded(s, dst);
  }

  // The byte b may follow s.
  predicate FitsNext(s: seq<Byte>, b: Byte, dst: nat) {
    |s| + 1 >= HEADER_SIZE ==>
      HasImage(s + [b], dst) && (|s| >= ImageSize(s + [b], dst) ==> b == PADDING)
  }

  // The bytes before byte i of a block.
  function Before(s: seq<Byte>, data: seq<Byte>, i: nat): (t: seq<Byte>)
    requires i <= |data|
    ensures |t| == |s| + i
  {
    s + data[..i]
  }

  lemma BeforeNext(s: seq<Byte>, data: seq<Byte>, i: nat)
    requires i < |data|
    ensures Before(s, data, 0) == s && Before(s, data, |data|) == s + data
    ensures Before(s, data, i + 1) == Before(s, data, i) + [data[i]]
  {
    assert data[..|data|] == data;
    assert s + data[..i + 1] == s + data[..i] + [data[i]];
  }

  lemma FitsAt(s: seq<Byte>, data: seq<Byte>, dst: nat, j: nat)
    requires j < |data| && |s| + j + 1 >= HEADER_SIZE
    ensures FitsNext(Before(s, data, j), data[j], dst) <==>
              HasImage(s + data, dst) && (|s| + j >= ImageSize(s + data, dst) ==> (s + data)[|s| + j] == PADDING)
  {
    var all, next := s + data, Before(s, data, j) + [data[j]];
    assert next == all[..|s| + j + 1];
    assert next[..HEADER_SIZE] == all[..HEADER_SIZE];
    ImageOfPrefix(next, all, dst);
  }

  predicate AllFit(s: seq<Byte>, data: seq<Byte>, dst: nat)
    requires |data| == BLOCK_SIZE
  {
    forall j :: 0 <= j < BLOCK_SIZE ==> FitsNext(Before(s, data, j), data[j], dst)
  }

  // A block is storable exactly when each of its bytes may follow the ones before it.
  lemma FitsBlock(s: seq<Byte>, data: seq<Byte>, dst: nat)
    requires |data| == BLOCK_SIZE && (s != [] ==> HasImage(s, dst) && |s| < ImageSize(s, dst))
    ensures Storable(s, data, dst) <==> AllFit(s, data, dst)
  {
    var all := s + data;
    if s != [] {
      assert s[..HEADER_SIZE] == all[..HEADER_SIZE];
      ImageOfPrefix(s, all, dst);
    }
    if Storable(s, data, dst) {
      forall j | 0 <= j < BLOCK_SIZE ensures FitsNext(Before(s, data, j), data[j], dst) {
        if |s| + j + 1 >= HEADER_SIZE {
          FitsAt(s, data, dst, j);
        }
      }
    }
    if AllFit(s, data, dst) {
      FitsAt(s, data, dst, BLOCK_SIZE - 1);
      forall j | |s| <= j < |all| && j >= ImageSize(all, dst) ensures all[j] == PADDING {
        FitsAt(s, data, dst, j - |s|);
      }
    }
  }

  // What any number of accepted blocks amount to.
  ghost predicate WellStored(s: seq<Byte>, dst: nat) {
    |s| % BLOCK_SIZE == 0 &&
    (s != [] ==> && HasImage(s, dst) && |s| < ImageSize(s, dst) + BLOCK_SIZE
                 && forall j :: 0 <= j < |s| && j >= ImageSize(s, dst) ==> s[j] == PADDING)
  }

  lemma StorableKeeps(s: seq<Byte>, data: seq<Byte>, dst: nat)
    requires WellStored(s, dst) && |data| == BLOCK_SIZE && Storable(s, data, dst)
    ensures WellStored(s + data, dst)
  {
    if s != [] {
      assert s[..HEADER_SIZE] == (s + data)[..HEADER_SIZE];
      ImageOfPrefix(s, s + data, dst);
    }
    hide ParseHeader;
    var all := s + data;
    forall j | 0 <= j < |all| && j >= ImageSize(all, dst) ensures j >= |s| && all[j] == PADDING {
    }
  }

  // When as many bytes have come in as the image has: exactly as many blocks were stored as it
  // takes, the rest of the last one is padding, memory holds exactly the declared image, all of
  // it below the limit, and no 32-bit sum of offsets or addresses wrapped.
  lemma WholeImageStored(s: seq<Byte>, dst: nat)
    requires WellStored(s, dst) && HasImage(s, dst) && |s| >= ImageSize(s, dst)
    ensures var n := ImageSize(s, dst);
            && |s| / BLOCK_SIZE == (n + BLOCK_SIZE - 1) / BLOCK_SIZE
            && (forall j :: n <= j < |s| ==> s[j] == PADDING)
            && (forall a :: a in Loaded(s, dst) <==> dst <= a < dst + n - HEADER_SIZE)
            && (forall a <- Loaded(s, dst) :: Loaded(s, dst)[a] == s[HEADER_SIZE + a - dst])
            && dst + n - HEADER_SIZE <= LOAD_LIMIT && |s| + BLOCK_SIZE < 0x1_0000_0000
  {
    forall a: nat | dst <= a < dst + ImageSize(s, dst) - HEADER_SIZE ensures a in Loaded(s, dst) {
      assert Covers(s, dst, a);
    }
  }

  lemma NoneAfterEnd(s: seq<Byte>, data: seq<Byte>, dst: nat)
    requires s != [] && HasImage(s, dst) && |s| >= ImageSize(s, dst)
    ensures !Storable(s, data, dst)
  {
    assert s[..HEADER_SIZE] == (s + data)[..HEADER_SIZE];
    ImageOfPrefix(s, s + data, dst);
  }

  class Loader {
    const dst: nat
    const header: array<Byte>
    var headerReady: bool
    var imageSize: nat
    var streamOffset: nat
    var memory: map<nat, Byte>

    // The fields are what the bytes s, taken in so far, make them.
    ghost predicate Reflects(s: seq<Byte>)
      reads this, header
    {
      && header.Length == HEADER_SIZE
      && (forall i :: 0 <= i < HEADER_SIZE && i < |s| ==> header[i] == s[i])
      && (headerReady <==> |s| >= HEADER_SIZE)
      && (headerReady ==> HasImage(s, dst) && imageSize == ImageSize(s, dst))
      && memory == Loaded(s, dst)
    }

    ghost predicate Valid(s: seq<Byte>)
      reads this, header
    {
      Reflects(s) && streamOffset == |s| && WellStored(s, dst)
    }

    constructor (dst: nat)
      ensures this.dst == dst && Valid([]) && fresh(header)
    {
      this.dst := dst;
      header := new Byte[HEADER_SIZE](_ => 0);
      headerReady, imageSize, streamOffset, memory := false, 0, 0, map[];
    }

    // The body of the loop of store_block: the byte after s.
    method StoreByte(b: Byte, imageOffset: nat, ghost s: seq<Byte>) returns (ok: bool)
      requires Reflects(s) && imageOffset == |s|
      modifies this`headerReady, this`imageSize, this`memory, header
      ensures ok <==> FitsNext(s, b, dst)
      ensures ok ==> Reflects(s + [b])
      ensures !ok ==> memory == Loaded(s, dst)
    {
      ok := true;
      if imageOffset < HEADER_SIZE {
        header[imageOffset] := b;
        if imageOffset + 1 == HEADER_SIZE {
          assert header[..] == s + [b];
          ImageOfPrefix(header[..], s + [b], dst);
          var parsed := ParseHeader(header[..], dst);
          if !parsed.Parsed? {
            return false;
          }
          imageSize := HEADER_SIZE + parsed.text + parsed.data;
          headerReady := true;
        }
        LoadedHeader(s, dst);
        LoadedHeader(s + [b], dst);
      } else {
        LoadedOneMore(s, b, dst);
        if imageOffset < imageSize {
          memory := memory[dst + imageOffset - HEADER_SIZE := b];
        } else {
          if b != PADDING {
            return false;
          }
        }
      }
    }

    // The loop of store_block.
    method StoreBytes(data: seq<Byte>, ghost s: seq<Byte>) returns (ok: bool)
      requires Reflects(s) && streamOffset == |s| && |data| == BLOCK_SIZE
      modifies this`headerReady, this`imageSize, this`memory, header
      ensures ok <==> AllFit(s, data, dst)
      ensures ok ==> Reflects(s + data)
      ensures !ok ==> forall a <- memory :: dst <= a < LOAD_LIMIT
    {
      hide Reflects;
      hide FitsNext;
      hide Loaded;
      hide Before;
      BeforeNext(s, data, 0);
      for i := 0 to BLOCK_SIZE
        invariant Reflects(Before(s, data, i))
        invariant forall j :: 0 <= j < i ==> FitsNext(Before(s, data, j), data[j], dst)
      {
        ok := StoreByte(data[i], streamOffset + i, Before(s, data, i));
        if !ok {
          InWindow(Before(s, data, i), dst);
          return;
        }
        BeforeNext(s, data, i);
      }
      ok := true;
    }

    // store_block.  A block is accepted exactly when it is storable; one that is not stores
    // nothing outside the window of the image.
    method StoreBlock(data: seq<Byte>, ghost s: seq<Byte>) returns (ok: bool)
      requires Valid(s) && |data| == BLOCK_SIZE
      modifies this, header
      ensures ok <==> Storable(s, data, dst)
      ensures ok ==> Valid(s + data)
      ensures !ok ==> forall a <- memory :: dst <= a < LOAD_LIMIT
    {
      if headerReady && streamOffset >= imageSize {
        NoneAfterEnd(s, data, dst);
        InWindow(s, dst);
        return false;
      }
      FitsBlock(s, data, dst);
      hide FitsNext;
      hide Loaded;
      hide Storable;
      hide HasImage;
      hide Before;
      hide AllFit;
      ok := StoreBytes(data, s);
      if ok {
        StorableKeeps(s, data, dst);
        streamOffset := streamOffset + BLOCK_SIZE;
      }
    }
  }
}
