/** AES-256-CTR with random access. */
module Ctr {
  // Decryption may start at any byte offset (backend-transfer-go/internal/crypto/crypto.go,
  // backend/src/crypto/crypto.service.ts; section 6.5 of NIST SP 800-38A).  The block cipher itself is a
  // parameter.

  import opened CounterBlocks

  /** One block of keystream. */
  type Pad = p: seq<bv8> | |p| == 16 witness seq(16, _ => 0)

  /** The block cipher under a fixed key, applied to counter blocks. */
  type Cipher = seq<Octet> -> Pad

  // ---------------------------------------------------------------- the keystream

  /** Keystream byte `pos` of the stream that starts at counter block `iv`. */
  function KeyByte(cipher: Cipher, iv: seq<Octet>, pos: nat): bv8 {
    cipher(CounterAt(iv, pos / 16))[pos % 16]
  }

  /** En- or decryption of `data` whose first byte is byte `pos` of the stream. */
  function Crypt(cipher: Cipher, iv: seq<Octet>, pos: nat, data: seq<bv8>): seq<bv8> {
    seq(|data|, k requires 0 <= k < |data| => data[k] ^ KeyByte(cipher, iv, pos + k))
  }

  /**
   Every byte is combined with the byte at its place in its block, and that block is the cipher of
   the counter block whose big-endian value is the IV's plus the number of blocks before it.
   */
  ghost predicate ByBlocks(cipher: Cipher, iv: seq<Octet>, pos: nat, src: seq<bv8>, dst: seq<bv8>) {
    && |dst| == |src|
    && forall k, c: seq<Octet> ::
         0 <= k < |src| && |c| == 16 && BigEndian(c) == (BigEndian(iv) + (pos + k) / 16) % TWO_TO_128 ==>
           dst[k] == src[k] ^ cipher(c)[(pos + k) % 16]
  }

  lemma CryptByBlocks(cipher: Cipher, iv: seq<Octet>, pos: nat, data: seq<bv8>)
    requires |iv| == 16
    ensures ByBlocks(cipher, iv, pos, data, Crypt(cipher, iv, pos, data))
  {
    var dst := Crypt(cipher, iv, pos, data);
    forall k, c: seq<Octet>
      | 0 <= k < |data| && |c| == 16 && BigEndian(c) == (BigEndian(iv) + (pos + k) / 16) % TWO_TO_128
      ensures dst[k] == data[k] ^ cipher(c)[(pos + k) % 16]
    {
      KeyByteIs(cipher, iv, pos + k, c);
    }
  }

  lemma KeyByteIs(cipher: Cipher, iv: seq<Octet>, p: nat, c: seq<Octet>)
    requires |iv| == |c| == 16 && BigEndian(c) == (BigEndian(iv) + p / 16) % TWO_TO_128
    ensures KeyByte(cipher, iv, p) == cipher(c)[p % 16]
  {
    CounterIs(iv, p / 16, c);
  }

  /** The counter block is the only one with its value. */
  lemma CounterIs(iv: seq<Octet>, n: nat, c: seq<Octet>)
    requires |iv| == |c| == 16 && BigEndian(c) == (BigEndian(iv) + n) % TWO_TO_128
    ensures c == CounterAt(iv, n)
  {
    var m := Quotient(BigEndian(iv) + n);
    ScaledIs(m);
    CarryEnd(iv, n, c, m);
  }

  lemma XorTwice(a: bv8, k: bv8)
    ensures (a ^ k) ^ k == a
  {
  }

  lemma CryptFront(cipher: Cipher, iv: seq<Octet>, pos: nat, data: seq<bv8>, n: nat)
    requires n <= |data|
    ensures Crypt(cipher, iv, pos, data[..n]) == Crypt(cipher, iv, pos, data)[..n]
  {
  }

  /** Starting `q` blocks later is the same stream, 16 q bytes further on. */
  lemma KeyByteShift(cipher: Cipher, iv: seq<Octet>, q: nat, pos: nat)
    ensures KeyByte(cipher, CounterAt(iv, q), pos) == KeyByte(cipher, iv, 16 * q + pos)
  {
    CounterAdds(iv, q, pos / 16);
  }

  lemma CryptSplit(cipher: Cipher, iv: seq<Octet>, pos: nat, a: seq<bv8>, b: seq<bv8>)
    ensures Crypt(cipher, iv, pos, a + b) == Crypt(cipher, iv, pos, a) + Crypt(cipher, iv, pos + |a|, b)
  {
  }

  /** The seek: block part into the counter, byte part into the position. */
  lemma CryptSeek(cipher: Cipher, iv: seq<Octet>, offset: nat, data: seq<bv8>)
    ensures Crypt(cipher, CounterAt(iv, offset / 16), offset % 16, data) == Crypt(cipher, iv, offset, data)
  {
    forall k | 0 <= k < |data|
      ensures Crypt(cipher, CounterAt(iv, offset / 16), offset % 16, data)[k] == Crypt(cipher, iv, offset, data)[k]
    {
      KeyByteShift(cipher, iv, offset / 16, offset % 16 + k);
    }
  }

  /** Decrypting any suffix of a ciphertext from its offset gives that suffix of the plaintext. */
  lemma SuffixDecrypts(cipher: Cipher, iv: seq<Octet>, plain: seq<bv8>, offset: nat, end: nat)
    requires offset <= end <= |plain|
    ensures Crypt(cipher, iv, offset, Crypt(cipher, iv, 0, plain)[offset..end]) == plain[offset..end]
  {
    var sealed := Crypt(cipher, iv, 0, plain);
    forall k | 0 <= k < end - offset
      ensures Crypt(cipher, iv, offset, sealed[offset..end])[k] == plain[offset..end][k]
    {
      XorTwice(plain[offset + k], KeyByte(cipher, iv, offset + k));
    }
  }

  // ---------------------------------------------------------------- the Go stream

  /** `cipher.Stream` of a CTR mode: it keeps the current keystream block and how much of it is used. */
  class CtrStream {
    const cipher: Cipher
    const counter: array<Octet>
    var block: Pad
    var used: nat
    ghost const iv: seq<Octet>
    ghost var blocks: nat  // keystream blocks made so far
    ghost var pos: nat

    ghost predicate Valid()
      reads this, counter
    {
      && |iv| == 16 && counter.Length == 16 && used <= 16
      && pos + 16 == 16 * blocks + used
      && counter[..] == CounterAt(iv, blocks)
      && (blocks > 0 ==> block == cipher(CounterAt(iv, blocks - 1)))
    }

    constructor (cipher: Cipher, iv: seq<Octet>)
      requires |iv| == 16
      ensures Valid() && fresh(counter) && this.cipher == cipher && this.iv == iv && pos == 0
    {
      this.cipher, this.iv := cipher, iv;
      counter := new Octet[16](i requires 0 <= i < |iv| => iv[i]);
      block, used, blocks, pos := seq(16, _ => 0), 16, 0, 0;
      new;
      assert counter[..] == iv;
      CounterAdds(iv, 0, 0);
    }

    method NextKeyByte() returns (key: bv8)
      requires Valid()
      modifies this, counter
      ensures Valid() && pos == old(pos) + 1 && key == KeyByte(cipher, iv, old(pos))
    {
      if used == 16 {
        CounterAdds(iv, blocks, 1);
        block := cipher(counter[..]);
        AddBlocks(counter, 1);
        used, blocks := 0, blocks + 1;
      }
      assert pos / 16 == blocks - 1 && pos % 16 == used;
      key := block[used];
      used, pos := used + 1, pos + 1;
    }

    method XorKeyStream(src: seq<bv8>) returns (dst: seq<bv8>)
      requires Valid()
      modifies this, counter
      ensures Valid() && pos == old(pos) + |src|
      ensures dst == Crypt(cipher, iv, old(pos), src)
      ensures ByBlocks(cipher, iv, old(pos), src, dst)
    {
      CryptByBlocks(cipher, iv, pos, src);
      dst := XorBytes(src);
    }

    /** The loop over the bytes. */
    method XorBytes(src: seq<bv8>) returns (dst: seq<bv8>)
      requires Valid()
      modifies this, counter
      ensures Valid() && pos == old(pos) + |src|
      ensures dst == Crypt(cipher, iv, old(pos), src)
    {
      dst := [];
      ghost var start := pos;
      for k := 0 to |src|
        invariant Valid()
        invariant pos == start + k && |dst| == k
        invariant forall j :: 0 <= j < k ==> dst[j] == src[j] ^ KeyByte(cipher, iv, start + j)
      {
        var key := NextKeyByte();
        ghost var before := dst;
        dst := dst + [src[k] ^ key];
        forall j | 0 <= j < k + 1 ensures dst[j] == src[j] ^ KeyByte(cipher, iv, start + j) {
          if j < k { assert dst[j] == before[j]; }
        }
      }
    }
  }

  /** `DecryptStreamWithOffset`: add the block index to a copy of the IV, then drop part of a block. */
  method DecryptStreamWithOffset(cipher: Cipher, iv: seq<Octet>, byteOffset: nat) returns (stream: CtrStream)
    requires |iv| == 16
    ensures fresh(stream) && fresh(stream.counter) && stream.Valid()
    ensures stream.cipher == cipher && stream.iv == CounterAt(iv, byteOffset / 16) && stream.pos == byteOffset % 16
  {
    var newIv := new Octet[16](i requires 0 <= i < |iv| => iv[i]);
    assert newIv[..] == iv;
    AddBlocks(newIv, byteOffset / 16);
    stream := new CtrStream(cipher, newIv[..]);
    var bytesToDrop := byteOffset % 16;
    if bytesToDrop > 0 {
      var _ := stream.XorKeyStream(seq(bytesToDrop, _ => 0));
    }
  }

  function Flatten(pieces: seq<seq<bv8>>): seq<bv8> {
    if |pieces| == 0 then [] else pieces[0] + Flatten(pieces[1..])
  }

  /**
   Seekable decryption, read in any pieces: feeding the ciphertext from `offset` on yields the
   plaintext from `offset` on.
   */
  method DecryptFrom(
    cipher: Cipher, iv: seq<Octet>, ghost plain: seq<bv8>, offset: nat, ghost end: nat, pieces: seq<seq<bv8>>)
    returns (result: seq<bv8>)
    requires |iv| == 16 && offset <= end <= |plain|
    requires Flatten(pieces) == Crypt(cipher, iv, 0, plain)[offset..end]
    ensures result == plain[offset..end]
  {
    var stream := DecryptStreamWithOffset(cipher, iv, offset);
    result := [];
    ghost var newIv, start := stream.iv, stream.pos;
    for k := 0 to |pieces|
      invariant stream.Valid() && fresh(stream) && fresh(stream.counter) && stream.cipher == cipher
      invariant stream.iv == newIv
      invariant stream.pos == start + |Flatten(pieces[..k])|
      invariant result == Crypt(cipher, newIv, start, Flatten(pieces[..k]))
    {
      FlattenLast(pieces[..k + 1]);
      assert pieces[..k + 1][..k] == pieces[..k];
      CryptSplit(cipher, newIv, start, Flatten(pieces[..k]), pieces[k]);
      var part := stream.XorBytes(pieces[k]);
      result := result + part;
    }
    assert pieces[..|pieces|] == pieces;
    CryptSeek(cipher, iv, offset, Flatten(pieces));
    SuffixDecrypts(cipher, iv, plain, offset, end);
  }

  lemma {:induction false} FlattenLast(pieces: seq<seq<bv8>>)
    requires |pieces| > 0
    ensures Flatten(pieces) == Flatten(pieces[..|pieces| - 1]) + pieces[|pieces| - 1]
  {
    if |pieces| > 1 {
      FlattenLast(pieces[1..]);
      assert pieces[1..][..|pieces| - 2] == pieces[..|pieces| - 1][1..];
    }
  }

  // ---------------------------------------------------------------- the TypeScript stream

  function Zeros(n: nat): seq<bv8> {
    seq(n, _ => 0)
  }

  /** Padding the input and dropping as many output bytes is the same seek. */
  lemma PadAndDrop(cipher: Cipher, iv: seq<Octet>, offset: nat, data: seq<bv8>)
    ensures var out := Crypt(cipher, CounterAt(iv, offset / 16), 0, Zeros(offset % 16) + data);
      |out| == offset % 16 + |data| && out[offset % 16..] == Crypt(cipher, iv, offset, data)
  {
    CryptSplit(cipher, CounterAt(iv, offset / 16), 0, Zeros(offset % 16), data);
    CryptSeek(cipher, iv, offset, data);
  }

  function Least(a: nat, b: nat): nat {
    if a < b then a else b
  }

  /** `s` without its first `k` elements, as far as there are any. */
  function Beyond(s: seq<bv8>, k: nat): seq<bv8> {
    if k <= |s| then s[k..] else []
  }

  lemma BeyondGrows(s: seq<bv8>, more: seq<bv8>, k: nat)
    ensures |s| >= k ==> Beyond(s + more, k) == Beyond(s, k) + more
    ensures |s| < k ==> Beyond(s + more, k) == Beyond(more, k - |s|) && Beyond(s, k) == []
  {
  }

  /**
   `AesCtrOffsetStream`.  `written` is what the decipher was given and `emitted` what it has
   handed to the data handler so far; how the emitted bytes are cut into events is arbitrary.
   */
  class AesCtrOffsetStream {
    const cipher: Cipher
    const newIv: seq<Octet>
    const bytesToDrop: nat
    var dropped: nat
    var paddingInjected: bool
    var written: seq<bv8>
    var emitted: nat
    var pushed: seq<bv8>
    ghost const iv: seq<Octet>
    ghost const byteOffset: nat
    ghost var input: seq<bv8>

    /** What the decipher was given: the padding once, and all input. */
    ghost predicate Fed()
      reads this`written, this`input, this`paddingInjected
    {
      && newIv == CounterAt(iv, byteOffset / 16) && bytesToDrop == byteOffset % 16
      && written == (if paddingInjected then Zeros(bytesToDrop) else []) + input
      && (|input| > 0 ==> paddingInjected || bytesToDrop == 0)
    }

    /** Of the bytes `seen` so far, the front has been dropped and the rest pushed. */
    ghost predicate Sifted(seen: seq<bv8>)
      reads this`dropped, this`pushed
    {
      dropped == Least(|seen|, bytesToDrop) && pushed == Beyond(seen, bytesToDrop)
    }

    function Output(): (r: seq<bv8>)
      reads this`written
      ensures |r| == |written|
    {
      Crypt(cipher, newIv, 0, written)
    }

    ghost predicate Valid()
      reads this
    {
      Fed() && emitted <= |written| && Sifted(Output()[..emitted])
    }

    constructor (cipher: Cipher, iv: seq<Octet>, byteOffset: nat)
      requires |iv| == 16
      ensures Valid() && this.cipher == cipher && this.iv == iv && this.byteOffset == byteOffset
      ensures input == [] && pushed == []
    {
      this.cipher, this.iv, this.byteOffset := cipher, iv, byteOffset;
      var block := new Octet[16](i requires 0 <= i < |iv| => iv[i]);
      assert block[..] == iv;
      AddBlocks(block, byteOffset / 16);
      newIv, bytesToDrop := block[..], byteOffset % 16;
      dropped, paddingInjected, written, emitted, pushed, input := 0, false, [], 0, [], [];
    }

    /** `_transform`: on the first chunk, zero bytes go in first. */
    method Transform(chunk: seq<bv8>)
      requires Valid()
      modifies this
      ensures Valid() && input == old(input) + chunk && pushed == old(pushed)
    {
      ghost var before := written;
      if !paddingInjected && bytesToDrop > 0 {
        paddingInjected := true;
        written := written + Zeros(bytesToDrop);
      }
      written := written + chunk;
      input := input + chunk;
      CryptSplit(cipher, newIv, 0, before, written[|before|..]);
      assert written == before + written[|before|..];
    }

    /** The decipher emits its next `n` bytes as one data event. */
    method OnData(n: nat)
      requires Valid() && emitted + n <= |written|
      modifies this`dropped, this`pushed, this`emitted
      ensures Valid() && input == old(input) && emitted == old(emitted) + n
    {
      var output := Output();
      Sift(output[..emitted], output[emitted..emitted + n]);
      assert output[..emitted] + output[emitted..emitted + n] == output[..emitted + n];
      emitted := emitted + n;
    }

    /** The branches of the data handler: drop from the front what is still to be dropped. */
    method Sift(ghost seen: seq<bv8>, chunk: seq<bv8>)
      requires Sifted(seen)
      modifies this`dropped, this`pushed
      ensures Sifted(seen + chunk)
    {
      BeyondGrows(seen, chunk, bytesToDrop);
      if dropped < bytesToDrop {
        var toDrop := Least(bytesToDrop - dropped, |chunk|);
        dropped := dropped + toDrop;
        if toDrop < |chunk| {
          pushed := pushed + chunk[toDrop..];
        }
      } else {
        pushed := pushed + chunk;
      }
    }

    /** At any time a prefix of the decryption has been pushed; all of it once all was emitted. */
    lemma PushedIsDecryption()
      requires Valid() && |iv| == 16
      ensures pushed <= Crypt(cipher, iv, byteOffset, input)
      ensures emitted == |written| ==> pushed == Crypt(cipher, iv, byteOffset, input)
      ensures |pushed| <= |input| && (emitted == |written| ==> |pushed| == |input|)
      ensures ByBlocks(cipher, iv, byteOffset, input[..|pushed|], pushed)
    {
      PushedIsFront();
      CryptByBlocks(cipher, iv, byteOffset, input[..|pushed|]);
      CryptFront(cipher, iv, byteOffset, input, |pushed|);
    }

    lemma PushedIsFront()
      requires Valid()
      ensures pushed <= Crypt(cipher, iv, byteOffset, input)
      ensures emitted == |written| ==> pushed == Crypt(cipher, iv, byteOffset, input)
    {
      PadAndDrop(cipher, iv, byteOffset, input);
      if !paddingInjected && bytesToDrop > 0 {
        assert written == [];
      } else if bytesToDrop == 0 {
        assert written == Zeros(bytesToDrop) + input;
      }
    }
  }
}
