/** The SWAN64 block cipher: a Feistel network on a 64-bit block held as
    two 4-byte lanes L and R. Each round has two half-rounds; a half-round
    passes one lane through the round function (ShiftLanes, add the
    half-round's subkey, Beta, SwitchLanes) and XORs the result into the
    other lane. Encryption derives its subkeys on the fly; decryption reads
    them from a table built by GenerateKey, back to front. */
module Swan64 {
  import opened Lanes
  import opened KeySchedule

  /** Recommended round counts for 128- and 256-bit keys. */
  const ROUNDS64_K128: nat := 32
  const ROUNDS64_K256: nat := 64

  /** Key sizes in bits. */
  const KEY128: nat := 128
  const KEY256: nat := 256

  /** A 64-bit block: bytes 0 .. 4 are the left lane, 4 .. 8 the right. */
  datatype Block = Block(left: Lane, right: Lane)

  function BlockOf(s: seq<bv8>): Block
    requires |s| == 8
  {
    Block(LaneOf(s[..4]), LaneOf(s[4..]))
  }

  function BlockBytes(b: Block): (s: seq<bv8>)
    ensures |s| == 8
  {
    [b.left.a0, b.left.a1, b.left.a2, b.left.a3, b.right.a0, b.right.a1, b.right.a2, b.right.a3]
  }

  /** BlockOf and BlockBytes are inverse bijections between blocks and
      8-byte strings, so a buffer is pinned down by the block it holds. */
  lemma BlockOfBytes(b: Block)
    ensures BlockOf(BlockBytes(b)) == b
  {
  }

  lemma BlockBytesOf(s: seq<bv8>)
    requires |s| == 8
    ensures BlockBytes(BlockOf(s)) == s
  {
  }

  // ---------------------------------------------------------------------
  // Rounds

  /** A round function: maps a lane and a subkey to the lane XORed into the
      other half of the block. The Feistel structure below holds for any. */
  type RoundFn = (Lane, Lane) -> Lane

  /** SWAN64's round function applied to lane x under subkey k: ShiftLanes,
      add the subkey, Beta, SwitchLanes. */
  function RoundFunction(x: Lane, k: Lane): Lane
  {
    SwitchLanes(Beta(Xor(ShiftLanes(x), k)))
  }

  /** One encryption round with subkeys k1 (first half) and k2 (second):
      R ^= F(L, k1), then L ^= F(R, k2). */
  function EncryptRound(f: RoundFn, b: Block, k1: Lane, k2: Lane): Block
  {
    var r := Xor(b.right, f(b.left, k1));
    Block(Xor(b.left, f(r, k2)), r)
  }

  /** One decryption round with subkeys k1 (first half) and k2 (second):
      L ^= F(R, k1), then R ^= F(L, k2). */
  function DecryptRound(f: RoundFn, b: Block, k1: Lane, k2: Lane): Block
  {
    var l := Xor(b.left, f(b.right, k1));
    Block(l, Xor(b.right, f(l, k2)))
  }

  /** A decryption round with the subkeys swapped undoes an encryption
      round, and the other way round: each round is a bijection on blocks
      whatever the round function is. */
  lemma DecryptRoundInverts(f: RoundFn, b: Block, k1: Lane, k2: Lane)
    ensures DecryptRound(f, EncryptRound(f, b, k1, k2), k2, k1) == b
    ensures EncryptRound(f, DecryptRound(f, b, k2, k1), k1, k2) == b
  {
    var e := EncryptRound(f, b, k1, k2);
    XorCancel(b.left, f(e.right, k2));
    XorCancel(b.right, f(b.left, k1));
    var d := DecryptRound(f, b, k2, k1);
    XorCancel(b.left, f(b.right, k2));
    XorCancel(b.right, f(d.left, k1));
  }

  // ---------------------------------------------------------------------
  // The whole cipher

  /** n encryption rounds with subkeys ks: round j uses ks[2 * j - 2] and
      ks[2 * j - 1], the subkeys of half-rounds 2 * j - 1 and 2 * j. */
  function EncryptWith(f: RoundFn, b: Block, ks: seq<Lane>, n: nat): Block
    requires 2 * n <= |ks|
  {
    if n == 0 then b else EncryptRound(f, EncryptWith(f, b, ks, n - 1), ks[2 * n - 2], ks[2 * n - 1])
  }

  /** Rounds 1 .. n only read the first 2 * n subkeys. */
  lemma {:induction false} EncryptWithPrefix(f: RoundFn, b: Block, ks: seq<Lane>, more: seq<Lane>, n: nat)
    requires 2 * n <= |ks|
    ensures EncryptWith(f, b, ks + more, n) == EncryptWith(f, b, ks, n)
  {
    if n > 0 {
      EncryptWithPrefix(f, b, ks, more, n - 1);
    }
  }

  /** Appending two subkeys allows one more round. */
  lemma EncryptWithExtend(f: RoundFn, b: Block, ks: seq<Lane>, k1: Lane, k2: Lane, n: nat, cur: Block)
    requires |ks| == 2 * n
    requires cur == EncryptWith(f, b, ks, n)
    ensures EncryptWith(f, b, ks + [k1, k2], n + 1) == EncryptRound(f, cur, k1, k2)
  {
    EncryptWithPrefix(f, b, ks, [k1, k2], n);
  }

  /** The first n of `rounds` decryption rounds reading the subkey table:
      round j uses slot 2 * rounds + 1 - (2 * j - 1), then slot
      2 * rounds + 1 - 2 * j. */
  function DecryptWith(f: RoundFn, b: Block, table: seq<bv8>, rounds: nat, n: nat): Block
    requires (2 * rounds + 1) * 4 <= |table| && n <= rounds
  {
    if n == 0 then b
    else DecryptRound(f, DecryptWith(f, b, table, rounds, n - 1),
                      Slot(table, 2 * rounds + 1 - (2 * n - 1)), Slot(table, 2 * rounds + 1 - 2 * n))
  }

  /** The table holds the subkeys ks in slots 1 .. |ks|. */
  ghost predicate Holds(table: seq<bv8>, ks: seq<Lane>)
  {
    && (|ks| + 1) * 4 <= |table|
    && forall t | 1 <= t <= |ks| :: Slot(table, t) == ks[t - 1]
  }

  /** After n decryption rounds on a ciphertext of `rounds` rounds, the
      state is the encryption state after rounds - n rounds. */
  lemma {:induction false} DecryptUnwinds(f: RoundFn, b: Block, ks: seq<Lane>, table: seq<bv8>, rounds: nat, n: nat)
    requires |ks| == 2 * rounds && Holds(table, ks) && n <= rounds
    ensures DecryptWith(f, EncryptWith(f, b, ks, rounds), table, rounds, n) == EncryptWith(f, b, ks, rounds - n)
  {
    if n > 0 {
      DecryptUnwinds(f, b, ks, table, rounds, n - 1);
      // This round undoes encryption round j.
      var j := rounds - (n - 1);
      var k1, k2 := ks[2 * j - 2], ks[2 * j - 1];
      var e := EncryptWith(f, b, ks, j - 1);
      assert EncryptWith(f, b, ks, j) == EncryptRound(f, e, k1, k2);
      var s1, s2 := 2 * rounds + 1 - (2 * n - 1), 2 * rounds + 1 - 2 * n;
      assert s1 == 2 * j && s2 == 2 * j - 1;
      assert Slot(table, s1) == k2 && Slot(table, s2) == k1;
      var d := DecryptWith(f, EncryptWith(f, b, ks, rounds), table, rounds, n - 1);
      assert DecryptWith(f, EncryptWith(f, b, ks, rounds), table, rounds, n)
          == DecryptRound(f, d, Slot(table, s1), Slot(table, s2));
      assert d == EncryptWith(f, b, ks, j);
      assert d == EncryptRound(f, e, k1, k2);
      DecryptRoundInverts(f, e, k1, k2);
      assert rounds - n == j - 1;
    }
  }

  // ---------------------------------------------------------------------
  // SWAN64

  /** `rounds` rounds of SWAN64 encryption under master key k: round j uses
      the subkeys of half-rounds 2 * j - 1 and 2 * j. */
  function Encrypt(b: Block, k: seq<bv8>, rounds: nat): Block
    requires |k| >= 4
  {
    EncryptWith(RoundFunction, b, Subkeys(k, 2 * rounds), rounds)
  }

  /** SWAN64 decryption of `rounds` rounds with a subkey table. */
  function Decrypt(b: Block, table: seq<bv8>, rounds: nat): Block
    requires (2 * rounds + 1) * 4 <= |table|
  {
    DecryptWith(RoundFunction, b, table, rounds, rounds)
  }

  /** A schedule table of key k holds the subkeys Encrypt uses. */
  lemma ScheduleHolds(table: seq<bv8>, k: seq<bv8>, rounds: nat)
    requires |k| >= 4 && IsSchedule(table, k, rounds)
    ensures Holds(table, Subkeys(k, 2 * rounds))
  {
    forall t | 1 <= t <= 2 * rounds
      ensures Slot(table, t) == Subkeys(k, 2 * rounds)[t - 1]
    {
      SubkeysAt(k, 2 * rounds, t);
    }
  }

  /** Decrypting with the schedule table of the same key and round count
      recovers the plaintext. */
  lemma RoundTrip(b: Block, k: seq<bv8>, table: seq<bv8>, rounds: nat)
    requires |k| >= 4 && IsSchedule(table, k, rounds)
    ensures Decrypt(Encrypt(b, k, rounds), table, rounds) == b
  {
    ScheduleHolds(table, k, rounds);
    DecryptUnwinds(RoundFunction, b, Subkeys(k, 2 * rounds), table, rounds, rounds);
  }

  // ---------------------------------------------------------------------
  // The source's routines on byte buffers

  /** L[0 .. 4] = in[0 .. 4]; R[0 .. 4] = in[4 .. 8]. */
  method LoadBlock(input: array<bv8>, L: array<bv8>, R: array<bv8>)
    requires input.Length >= 8 && L.Length == 4 && R.Length == 4
    requires input != L && input != R && L != R
    modifies L, R
    ensures Block(LaneOf(L[..]), LaneOf(R[..])) == BlockOf(input[..8])
  {
    L[0] := input[0];
    L[1] := input[1];
    L[2] := input[2];
    L[3] := input[3];
    R[0] := input[4];
    R[1] := input[5];
    R[2] := input[6];
    R[3] := input[7];
  }

  /** out[0 .. 4] = L[0 .. 4]; out[4 .. 8] = R[0 .. 4]. */
  method StoreBlock(L: array<bv8>, R: array<bv8>, output: array<bv8>)
    requires output.Length >= 8 && L.Length == 4 && R.Length == 4
    requires output != L && output != R
    modifies output
    ensures BlockOf(output[..8]) == Block(LaneOf(L[..]), LaneOf(R[..]))
    ensures output[8..] == old(output[8..])
  {
    output[0] := L[0];
    output[1] := L[1];
    output[2] := L[2];
    output[3] := L[3];
    output[4] := R[0];
    output[5] := R[1];
    output[6] := R[2];
    output[7] := R[3];
  }

  /** dst[j] = dst[j] ^ src[j] for j in 0 .. 4. */
  method XorInPlace(dst: array<bv8>, src: array<bv8>)
    requires dst.Length == 4 && src.Length == 4 && dst != src
    modifies dst
    ensures LaneOf(dst[..]) == Xor(old(LaneOf(dst[..])), LaneOf(src[..]))
  {
    dst[0] := dst[0] ^ src[0];
    dst[1] := dst[1] ^ src[1];
    dst[2] := dst[2] ^ src[2];
    dst[3] := dst[3] ^ src[3];
  }

  /** The end of a half-round, once temp holds the shifted lane and subkey
      the subkey: temp ^= subkey; Beta(temp); SwitchLanes(temp);
      target ^= temp. */
  method MixHalf(temp: array<bv8>, subkey: array<bv8>, target: array<bv8>)
    requires temp.Length == 4 && subkey.Length == 4 && target.Length == 4
    requires temp != subkey && temp != target && subkey != target
    modifies temp, target
    ensures LaneOf(target[..])
         == Xor(old(LaneOf(target[..])), SwitchLanes(Beta(Xor(old(LaneOf(temp[..])), LaneOf(subkey[..])))))
  {
    XorInPlace(temp, subkey);
    BetaInPlace(temp);
    SwitchLanesInPlace(temp);
    XorInPlace(target, temp);
  }

  /** An encryption half-round: temp = x; ShiftLanes(temp); one step of the
      key schedule on the scratch key k, which has gone through t
      half-rounds of the schedule of K, leaving the subkey in subkey; then
      temp ^= subkey; Beta; SwitchLanes; target ^= temp. */
  method EncryptHalfRound(x: array<bv8>, temp: array<bv8>, k: array<bv8>, keysize: nat,
                          subkey: array<bv8>, roundConstant: bv32, target: array<bv8>,
                          ghost K: seq<bv8>, ghost t: nat)
    returns (next: bv32)
    requires x.Length == 4 && temp.Length == 4 && subkey.Length == 4 && target.Length == 4
    requires k.Length == keysize / 8 && 4 <= keysize / 8 <= 256
    requires x != temp && x != subkey && x != target && x != k
    requires temp != subkey && temp != target && temp != k
    requires subkey != target && subkey != k && target != k
    requires |K| >= 4 && ScheduledAfter(k[..], roundConstant, K, t)
    modifies temp, k, subkey, target
    ensures ScheduledAfter(k[..], next, K, t + 1)
    ensures LaneOf(target[..]) == Xor(old(LaneOf(target[..])), RoundFunction(LaneOf(x[..]), Subkey(K, t + 1)))
  {
    CopyLane(x, temp);
    ShiftLanesInPlace(temp);
    next := NextSubkey(k, keysize, subkey, roundConstant, K, t);
    MixHalf(temp, subkey, target);
  }

  /** B after its first n rounds under round function f and the subkeys
      of key K. */
  function EncryptedAfter(f: RoundFn, B: Block, K: seq<bv8>, n: nat): Block
    requires |K| >= 4
  {
    EncryptWith(f, B, Subkeys(K, 2 * n), n)
  }

  /** One round of the encryption loop: R ^= F(L, subkey 2 * n + 1), then
      L ^= F(R, subkey 2 * n + 2), each subkey derived on the spot from the
      scratch key k, which has gone through 2 * n schedule steps. The block
      goes from n to n + 1 rounds of encryption of B. */
  method EncryptRoundStep(L: array<bv8>, R: array<bv8>, k: array<bv8>, keysize: nat, roundConstant: bv32,
                          ghost f: RoundFn, ghost K: seq<bv8>, ghost B: Block, ghost cur: Block, ghost n: nat, ghost t: nat)
    returns (next: bv32)
    requires L.Length == 4 && R.Length == 4
    requires k.Length == keysize / 8 && 4 <= keysize / 8 <= 256 && |K| >= 4
    requires L != R && L != k && R != k
    requires t == 2 * n
    requires ScheduledAfter(k[..], roundConstant, K, t)
    requires forall x, k {:trigger RoundFunction(x, k)} :: f(x, k) == RoundFunction(x, k)
    requires Block(LaneOf(L[..]), LaneOf(R[..])) == cur && cur == EncryptedAfter(f, B, K, n)
    modifies L, R, k
    ensures ScheduledAfter(k[..], next, K, t + 2)
    ensures Block(LaneOf(L[..]), LaneOf(R[..])) == EncryptedAfter(f, B, K, n + 1)
  {
    var tempL := new bv8[4];
    var subkey := new bv8[4];
    next := EncryptHalfRound(L, tempL, k, keysize, subkey, roundConstant, R, K, t);
    var tempR := new bv8[4];
    next := EncryptHalfRound(R, tempR, k, keysize, subkey, next, L, K, t + 1);
    SubkeysTwoMore(K, t);
    EncryptWithExtend(f, B, Subkeys(K, t), Subkey(K, t + 1), Subkey(K, t + 2), n, cur);
  }

  /** The source's SWAN64_K128_encrypt_rounds and SWAN64_K256_encrypt_rounds,
      which differ only in the key size: encrypts the 8 bytes of plain under
      the keysize-bit key into cipher, deriving the subkeys on the fly from
      a scratch copy of the key. */
  method EncryptBlock(plain: array<bv8>, key: array<bv8>, keysize: nat, rounds: nat, cipher: array<bv8>)
    requires plain.Length >= 8 && cipher.Length >= 8
    requires 4 <= keysize / 8 <= key.Length && keysize / 8 <= 256
    requires rounds < 255  // the byte-wide round counter must pass rounds
    modifies cipher
    ensures BlockOf(cipher[..8]) == Encrypt(BlockOf(old(plain[..8])), old(key[..keysize / 8]), rounds)
    ensures cipher[8..] == old(cipher[8..])
  {
    var n := keysize / 8;
    ghost var K := key[..n];
    var k := CopyKey(key, n);
    var L := new bv8[4];
    var R := new bv8[4];
    LoadBlock(plain, L, R);
    EncryptLoop(L, R, k, keysize, rounds, RoundFunction, K);
    StoreBlock(L, R, cipher);
  }

  /** The round loop of the encryption routines, for i = 1 .. rounds; the
      scratch key k starts as the key K and the round constant at 0. */
  method EncryptLoop(L: array<bv8>, R: array<bv8>, k: array<bv8>, keysize: nat, rounds: nat,
                     ghost f: RoundFn, ghost K: seq<bv8>)
    requires forall x, k {:trigger RoundFunction(x, k)} :: f(x, k) == RoundFunction(x, k)
    requires L.Length == 4 && R.Length == 4
    requires k.Length == keysize / 8 && 4 <= keysize / 8 <= 256 && k[..] == K
    requires L != R && L != k && R != k
    modifies L, R, k
    ensures |K| >= 4
    ensures Block(LaneOf(L[..]), LaneOf(R[..])) == EncryptedAfter(f, Block(old(LaneOf(L[..])), old(LaneOf(R[..]))), K, rounds)
  {
    var roundConstant: bv32 := 0;
    ghost var B := Block(LaneOf(L[..]), LaneOf(R[..]));
    ghost var cur := B;  // the block after i - 1 rounds
    ghost var n := 0;  // rounds done
    ghost var t := 0;  // half-rounds done
    var i := 1;
    while i <= rounds
      invariant 1 <= i <= rounds + 1 && n == i - 1 && t == 2 * n && |K| >= 4
      invariant ScheduledAfter(k[..], roundConstant, K, t)
      invariant Block(LaneOf(L[..]), LaneOf(R[..])) == cur
      invariant cur == EncryptedAfter(f, B, K, n)
    {
      roundConstant := EncryptRoundStep(L, R, k, keysize, roundConstant, f, K, B, cur, n, t);
      cur := EncryptedAfter(f, B, K, n + 1);
      n := n + 1;
      t := t + 2;
      i := i + 1;
    }
  }

  // ---------------------------------------------------------------------
  // Decryption with a precomputed table

  /** subkey = ekey[s]: the four bytes of slot s of the flat table. */
  method LoadSlot(ekey: array<bv8>, s: nat, subkey: array<bv8>)
    requires 4 * s + 4 <= ekey.Length && subkey.Length == 4 && ekey != subkey
    modifies subkey
    ensures LaneOf(subkey[..]) == Slot(ekey[..], s)
  {
    subkey[0] := ekey[4 * s];
    subkey[1] := ekey[4 * s + 1];
    subkey[2] := ekey[4 * s + 2];
    subkey[3] := ekey[4 * s + 3];
  }

  /** A decryption half-round: temp = x; ShiftLanes(temp); subkey = slot s
      of the table; temp ^= subkey; Beta; SwitchLanes; target ^= temp. */
  method DecryptHalfRound(x: array<bv8>, temp: array<bv8>, ekey: array<bv8>, s: nat,
                          subkey: array<bv8>, target: array<bv8>)
    requires x.Length == 4 && temp.Length == 4 && subkey.Length == 4 && target.Length == 4
    requires 4 * s + 4 <= ekey.Length
    requires x != temp && x != subkey && x != target && x != ekey
    requires temp != subkey && temp != target && temp != ekey
    requires subkey != target && subkey != ekey && target != ekey
    modifies temp, subkey, target
    ensures LaneOf(target[..]) == Xor(old(LaneOf(target[..])), RoundFunction(LaneOf(x[..]), Slot(ekey[..], s)))
  {
    CopyLane(x, temp);
    ShiftLanesInPlace(temp);
    LoadSlot(ekey, s, subkey);
    MixHalf(temp, subkey, target);
  }

  /** Round i = n + 1 of the decryption loop: L ^= F(R, slot 2 * rounds +
      1 - (2 * i - 1)), then R ^= F(L, slot 2 * rounds + 1 - 2 * i) (the
      source writes the second XOR as R = tempL ^ R). */
  method DecryptRoundStep(L: array<bv8>, R: array<bv8>, ekey: array<bv8>, rounds: nat, i: nat,
                          ghost f: RoundFn, ghost T: seq<bv8>, ghost C: Block, ghost cur: Block, ghost n: nat)
    requires L.Length == 4 && R.Length == 4 && L != R && L != ekey && R != ekey
    requires ekey[..] == T && (2 * rounds + 1) * 4 <= |T| && n < rounds && i == n + 1
    requires forall x, k {:trigger RoundFunction(x, k)} :: f(x, k) == RoundFunction(x, k)
    requires Block(LaneOf(L[..]), LaneOf(R[..])) == cur && cur == DecryptWith(f, C, T, rounds, n)
    modifies L, R
    ensures Block(LaneOf(L[..]), LaneOf(R[..])) == DecryptWith(f, C, T, rounds, n + 1)
  {
    var s1, s2 := 2 * rounds + 1 - (2 * i - 1), 2 * rounds + 1 - 2 * i;
    assert DecryptWith(f, C, T, rounds, n + 1) == DecryptRound(f, cur, Slot(T, s1), Slot(T, s2));
    var tempR := new bv8[4];
    var subkey := new bv8[4];
    DecryptHalfRound(R, tempR, ekey, s1, subkey, L);
    var tempL := new bv8[4];
    DecryptHalfRound(L, tempL, ekey, s2, subkey, R);
  }

  /** The round loop of the decryption routines, for i = 1 .. rounds. */
  method DecryptLoop(L: array<bv8>, R: array<bv8>, ekey: array<bv8>, rounds: nat,
                     ghost f: RoundFn, ghost T: seq<bv8>)
    requires forall x, k {:trigger RoundFunction(x, k)} :: f(x, k) == RoundFunction(x, k)
    requires L.Length == 4 && R.Length == 4 && L != R && L != ekey && R != ekey
    requires ekey[..] == T && (2 * rounds + 1) * 4 <= |T|
    modifies L, R
    ensures Block(LaneOf(L[..]), LaneOf(R[..])) == DecryptWith(f, Block(old(LaneOf(L[..])), old(LaneOf(R[..]))), T, rounds, rounds)
  {
    ghost var C := Block(LaneOf(L[..]), LaneOf(R[..]));
    ghost var cur := C;  // the block after i - 1 rounds
    ghost var n := 0;  // rounds done
    var i := 1;
    while i <= rounds
      invariant 1 <= i <= rounds + 1 && n == i - 1
      invariant Block(LaneOf(L[..]), LaneOf(R[..])) == cur
      invariant cur == DecryptWith(f, C, T, rounds, n)
    {
      DecryptRoundStep(L, R, ekey, rounds, i, f, T, C, cur, n);
      cur := DecryptWith(f, C, T, rounds, n + 1);
      n := n + 1;
      i := i + 1;
    }
  }

  /** The source's SWAN64_K128_decrypt_rounds and SWAN64_K256_decrypt_rounds,
      which are the same routine: decrypts the 8 bytes of cipher into plain
      with the table of 2 * rounds + 1 subkey slots that GenerateKey made,
      copied first into a local table (the memcpy). The round constant the
      source declares is never used. */
  method DecryptBlock(cipher: array<bv8>, table: array<bv8>, rounds: nat, plain: array<bv8>)
    requires cipher.Length >= 8 && plain.Length >= 8
    requires (2 * rounds + 1) * 4 <= table.Length
    requires rounds < 255  // the byte-wide round counter must pass rounds
    modifies plain
    ensures BlockOf(plain[..8]) == Decrypt(BlockOf(old(cipher[..8])), old(table[..(2 * rounds + 1) * 4]), rounds)
    ensures plain[8..] == old(plain[8..])
  {
    var ekey := CopyKey(table, (2 * rounds + 1) * 4);
    var L := new bv8[4];
    var R := new bv8[4];
    LoadBlock(cipher, L, R);
    DecryptLoop(L, R, ekey, rounds, RoundFunction, ekey[..]);
    StoreBlock(L, R, plain);
  }

  // ---------------------------------------------------------------------
  // The source's entry points

  method K128EncryptRounds(plain: array<bv8>, key: array<bv8>, rounds: nat, cipher: array<bv8>)
    requires plain.Length >= 8 && cipher.Length >= 8 && key.Length >= KEY128 / 8
    requires rounds < 255
    modifies cipher
    ensures BlockOf(cipher[..8]) == Encrypt(BlockOf(old(plain[..8])), old(key[..KEY128 / 8]), rounds)
    ensures cipher[8..] == old(cipher[8..])
  {
    EncryptBlock(plain, key, KEY128, rounds, cipher);
  }

  method K256EncryptRounds(plain: array<bv8>, key: array<bv8>, rounds: nat, cipher: array<bv8>)
    requires plain.Length >= 8 && cipher.Length >= 8 && key.Length >= KEY256 / 8
    requires rounds < 255
    modifies cipher
    ensures BlockOf(cipher[..8]) == Encrypt(BlockOf(old(plain[..8])), old(key[..KEY256 / 8]), rounds)
    ensures cipher[8..] == old(cipher[8..])
  {
    EncryptBlock(plain, key, KEY256, rounds, cipher);
  }

  method K128DecryptRounds(cipher: array<bv8>, table: array<bv8>, rounds: nat, plain: array<bv8>)
    requires cipher.Length >= 8 && plain.Length >= 8 && (2 * rounds + 1) * 4 <= table.Length
    requires rounds < 255
    modifies plain
    ensures BlockOf(plain[..8]) == Decrypt(BlockOf(old(cipher[..8])), old(table[..(2 * rounds + 1) * 4]), rounds)
    ensures plain[8..] == old(plain[8..])
  {
    DecryptBlock(cipher, table, rounds, plain);
  }

  method K256DecryptRounds(cipher: array<bv8>, table: array<bv8>, rounds: nat, plain: array<bv8>)
    requires cipher.Length >= 8 && plain.Length >= 8 && (2 * rounds + 1) * 4 <= table.Length
    requires rounds < 255
    modifies plain
    ensures BlockOf(plain[..8]) == Decrypt(BlockOf(old(cipher[..8])), old(table[..(2 * rounds + 1) * 4]), rounds)
    ensures plain[8..] == old(plain[8..])
  {
    DecryptBlock(cipher, table, rounds, plain);
  }

  /** A schedule table stays one when cut down to its 2 * rounds + 1 slots. */
  lemma {:induction false} IsSchedulePrefix(table: seq<bv8>, k: seq<bv8>, rounds: nat)
    requires |k| >= 4 && IsSchedule(table, k, rounds)
    ensures IsSchedule(table[..(2 * rounds + 1) * 4], k, rounds)
  {
    var p := table[..(2 * rounds + 1) * 4];
    forall t | 1 <= t <= 2 * rounds
      ensures Slot(p, t) == Subkey(k, t)
    {
      assert p[4 * t..4 * t + 4] == table[4 * t..4 * t + 4];
    }
  }

  /** GenerateKey, then encryption and decryption of one block with the
      same key and round count, on the caller's buffers: the block comes
      back unchanged. */
  method RoundTripBuffers(plain: array<bv8>, key: array<bv8>, keysize: nat, rounds: nat,
                          keyarray: array<bv8>, cipher: array<bv8>, recovered: array<bv8>)
    requires plain.Length >= 8 && cipher.Length >= 8 && recovered.Length >= 8
    requires 4 <= keysize / 8 <= key.Length && keysize / 8 <= 256
    requires rounds < 255 && (2 * rounds + 1) * 4 <= keyarray.Length
    requires keyarray != key && keyarray != plain && cipher != key && cipher != keyarray
    modifies keyarray, cipher, recovered
    ensures recovered[..8] == old(plain[..8])
  {
    GenerateKey(key, rounds, keyarray, keysize);
    EncryptBlock(plain, key, keysize, rounds, cipher);
    ghost var K := key[..keysize / 8];
    ghost var table := keyarray[..];
    IsSchedulePrefix(table, K, rounds);
    assert keyarray[..(2 * rounds + 1) * 4] == table[..(2 * rounds + 1) * 4];
    DecryptBlock(cipher, keyarray, rounds, recovered);
    RoundTrip(BlockOf(old(plain[..8])), K, table[..(2 * rounds + 1) * 4], rounds);
    BlockBytesOf(recovered[..8]);
    BlockBytesOf(old(plain[..8]));
  }
}
