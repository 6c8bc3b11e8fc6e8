/** The SWAN64 key schedule. A scratch copy of the master key is rotated
    3 bytes towards index 0 once per half-round; a 32-bit round constant
    grows by DELTA each time and is added to the first four key bytes; the
    sum is that half-round's subkey and is also written back over the first
    four key bytes, so the schedule accumulates. GenerateKey records the
    2 * rounds subkeys in slots 1 .. 2 * rounds of a table of 4-byte slots. */
module KeySchedule {
  import opened Lanes

  /** 2^32 divided by the golden ratio. */
  const DELTA: bv32 := 0x9e3779b9

  // ---------------------------------------------------------------------
  // Rotation of the key bytes

  /** The key moved cyclically 3 bytes towards index 0. */
  function RotatedKey(k: seq<bv8>): (r: seq<bv8>)
    requires |k| >= 3
    ensures |r| == |k|
  {
    k[3..] + k[..3]
  }

  /** Byte i of the rotated key is byte i + 3 (mod the key length) of the
      original: a rotation to the left, whatever the length. */
  lemma RotatedKeyAt(k: seq<bv8>, i: nat)
    requires |k| >= 3 && i < |k|
    ensures RotatedKey(k)[i] == k[(i + 3) % |k|]
  {
    if i + 3 < |k| {
      assert (i + 3) % |k| == i + 3;
    } else {
      assert (i + 3) % |k| == i + 3 - |k|;
    }
  }

  /** Rotation moves bytes, it never changes them. */
  lemma RotatedKeyPermutes(k: seq<bv8>)
    requires |k| >= 3
    ensures multiset(RotatedKey(k)) == multiset(k)
  {
    assert k == k[..3] + k[3..];
  }

  /** The source's RotateKeyByte on a key of keylength bits held in the
      first keylength / 8 bytes of key. */
  method RotateKeyByte(key: array<bv8>, keylength: nat)
    requires 3 <= keylength / 8 <= key.Length
    requires keylength / 8 <= 256  // the byte-wide loop counter must reach keylength / 8 - 1
    modifies key
    ensures key[..keylength / 8] == RotatedKey(old(key[..keylength / 8]))
    ensures key[keylength / 8..] == old(key[keylength / 8..])
  {
    var n := keylength / 8;
    ghost var k0 := key[..n];
    var temp := new bv8[3];
    var i := 0;
    while i < 3
      invariant 0 <= i <= 3
      invariant temp[..i] == key[..i]
      invariant key[..] == old(key[..])
    {
      temp[i] := key[i];
      i := i + 1;
    }
    assert temp[..] == k0[..3];
    ShiftKeyDown(key, n);
    RestoreHead(key, n, temp);
    assert key[..n - 3] == k0[3..] && key[n - 3..n] == k0[..3];
    assert key[..n] == key[..n - 3] + key[n - 3..n];
  }

  /** The middle loop of RotateKeyByte, corrected: every byte moves 3
      places down, for the passes 0 .. n - 4 whose source byte lies inside
      the key. */
  method ShiftKeyDown(key: array<bv8>, n: nat)
    requires 3 <= n <= key.Length
    modifies key
    ensures key[..n - 3] == old(key[3..n])
    ensures key[n - 3..] == old(key[n - 3..])
  {
    var i := 0;
    while i < n - 3
      invariant 0 <= i <= n - 3
      invariant forall j | 0 <= j < i :: key[j] == old(key[j + 3])
      invariant forall j | i <= j < key.Length :: key[j] == old(key[j])
    {
      key[i] := key[i + 3];
      i := i + 1;
    }
  }

  /** The last loop of RotateKeyByte: the three saved bytes become the
      last three bytes of the key. */
  method RestoreHead(key: array<bv8>, n: nat, temp: array<bv8>)
    requires 3 <= n <= key.Length && temp.Length == 3 && temp != key
    modifies key
    ensures key[..n - 3] == old(key[..n - 3])
    ensures key[n - 3..n] == temp[..]
    ensures key[n..] == old(key[n..])
  {
    var i := 0;
    while i < 3
      invariant 0 <= i <= 3
      invariant forall j | 0 <= j < n - 3 + i :: key[j] == if j < n - 3 then old(key[j]) else temp[j - (n - 3)]
      invariant forall j | n - 3 + i <= j < key.Length :: key[j] == old(key[j])
    {
      key[n - 3 + i] := temp[i];
      i := i + 1;
    }
  }

  // ---------------------------------------------------------------------
  // RotateKeyByte as the source writes it

  /** The key index read by each pass i = 0 .. n - 2 of the source's
      middle loop: key[i + 3]. */
  function ShiftLoopReads(n: nat): (r: seq<int>)
    requires n >= 1
    ensures |r| == n - 1
  {
    seq(n - 1, i => i + 3)
  }

  /** For every key length the last two passes of that loop read key[n]
      and key[n + 1], two bytes past the key. */
  lemma ShiftLoopOverreads(n: nat)
    requires n >= 3
    ensures ShiftLoopReads(n)[n - 3] == n && ShiftLoopReads(n)[n - 2] == n + 1
  {
  }

  /** The middle loop exactly as the source bounds it. It needs two bytes
      of key beyond the n-byte key; the last two passes copy them into
      key[n - 3] and key[n - 2]. */
  method ShiftKeyDownAsWritten(key: array<bv8>, n: nat)
    requires 3 <= n && n + 2 <= key.Length
    modifies key
    ensures key[..n - 3] == old(key[3..n])
    ensures key[n - 3..n - 1] == old(key[n..n + 2])
    ensures key[n..] == old(key[n..])
  {
    var i := 0;
    while i < n - 1
      invariant 0 <= i <= n - 1
      invariant forall j | 0 <= j < i :: key[j] == old(key[j + 3])
      invariant forall j | i <= j < key.Length :: key[j] == old(key[j])
    {
      key[i] := key[i + 3];
      i := i + 1;
    }
  }

  /** RotateKeyByte with the source's loop bound. It only runs on a buffer
      with two bytes to spare after the key, which the source's 16- and
      32-byte local keys lack; the bytes it reads there are overwritten by
      the last loop, so the rotated key is the same. */
  method RotateKeyByteAsWritten(key: array<bv8>, keylength: nat)
    requires 3 <= keylength / 8 && keylength / 8 + 2 <= key.Length
    requires keylength / 8 <= 256
    modifies key
    ensures key[..keylength / 8] == RotatedKey(old(key[..keylength / 8]))
    ensures key[keylength / 8..] == old(key[keylength / 8..])
  {
    var n := keylength / 8;
    ghost var k0 := key[..n];
    var temp := new bv8[3];
    var i := 0;
    while i < 3
      invariant 0 <= i <= 3
      invariant temp[..i] == key[..i]
      invariant key[..] == old(key[..])
    {
      temp[i] := key[i];
      i := i + 1;
    }
    assert temp[..] == k0[..3];
    ShiftKeyDownAsWritten(key, n);
    RestoreHead(key, n, temp);
    assert key[..n - 3] == k0[3..] && key[n - 3..n] == k0[..3];
    assert key[..n] == key[..n - 3] + key[n - 3..n];
  }

  // ---------------------------------------------------------------------
  // Adding the round constant

  /** The four subkey bytes read as an unsigned 32-bit little-endian word. */
  function LE32(s: Lane): bv32
  {
    (s.a0 as bv32) | ((s.a1 as bv32) << 8) | ((s.a2 as bv32) << 16) | ((s.a3 as bv32) << 24)
  }

  /** A 32-bit word stored as four little-endian bytes. */
  function LEBytes(x: bv32): (r: Lane)
    ensures LE32(r) == x
  {
    Lane((x & 0xFF) as bv8, ((x >> 8) & 0xFF) as bv8, ((x >> 16) & 0xFF) as bv8, (x >> 24) as bv8)
  }

  /** Reading four bytes as a word and storing it back gives the same bytes. */
  lemma LEBytesOfLE32(s: Lane)
    ensures LEBytes(LE32(s)) == s
  {
  }

  /** The subkey plus sum, added as 32-bit little-endian words (mod 2^32). */
  function AddConstant(s: Lane, sum: bv32): (r: Lane)
    ensures LE32(r) == LE32(s) + sum
  {
    LEBytes(LE32(s) + sum)
  }

  /** The source's AddRoundConstant: the first four bytes of subkey are
      replaced by their little-endian value plus sum. */
  method AddRoundConstant(subkey: array<bv8>, sum: bv32)
    requires subkey.Length >= 4
    modifies subkey
    ensures LaneOf(subkey[..4]) == AddConstant(LaneOf(old(subkey[..4])), sum)
    ensures subkey[4..] == old(subkey[4..])
  {
    var b := AddConstant(LaneOf(subkey[..4]), sum);
    subkey[0] := b.a0;
    subkey[1] := b.a1;
    subkey[2] := b.a2;
    subkey[3] := b.a3;
  }

  /** The 32-bit round constant after t half-rounds: DELTA added t times
      in the source's uint32_t arithmetic, which bv32 addition reproduces
      (it wraps modulo 2^32). */
  function RoundConstant(t: nat): bv32
  {
    if t == 0 then 0 else RoundConstant(t - 1) + DELTA
  }

  // ---------------------------------------------------------------------
  // The schedule

  /** One half-round of the schedule on the scratch key k, with the round
      constant rc already advanced: rotate, then add rc to the first four
      bytes. */
  function KeyStep(k: seq<bv8>, rc: bv32): (r: seq<bv8>)
    requires |k| >= 4
    ensures |r| == |k|
  {
    var rot := RotatedKey(k);
    Bytes(AddConstant(LaneOf(rot[..4]), rc)) + rot[4..]
  }

  /** The scratch key after t half-rounds of the schedule. */
  function KeyAfter(k: seq<bv8>, t: nat): (r: seq<bv8>)
    requires |k| >= 4
    ensures |r| == |k|
  {
    if t == 0 then k else KeyStep(KeyAfter(k, t - 1), RoundConstant(t))
  }

  /** The subkey of half-round t (t >= 1): the first four bytes of the
      scratch key once the t-th step has written it back. */
  function Subkey(k: seq<bv8>, t: nat): Lane
    requires |k| >= 4 && t >= 1
  {
    LaneOf(KeyAfter(k, t)[..4])
  }

  /** Half-round t rotates the previous key state and adds t * DELTA to its
      first four bytes as a little-endian word; the other bytes are those
      of the rotated key. */
  lemma SubkeyStep(k: seq<bv8>, t: nat)
    requires |k| >= 4 && t >= 1
    ensures Subkey(k, t) == AddConstant(LaneOf(RotatedKey(KeyAfter(k, t - 1))[..4]), RoundConstant(t))
    ensures KeyAfter(k, t)[4..] == RotatedKey(KeyAfter(k, t - 1))[4..]
  {
    var rot := RotatedKey(KeyAfter(k, t - 1));
    var sub := AddConstant(LaneOf(rot[..4]), RoundConstant(t));
    assert KeyAfter(k, t) == Bytes(sub) + rot[4..];
    assert KeyAfter(k, t)[..4] == Bytes(sub);
  }

  /** One step of the schedule as the source writes it at each half-round
      (in GenerateKey and inline in both encryptions): rotate the scratch
      key, copy its first four bytes into subkey, advance the round constant
      by DELTA, add it to subkey, and write subkey back over the first four
      key bytes. Returns the advanced round constant. */
  method ScheduleStep(key: array<bv8>, keysize: nat, subkey: array<bv8>, roundConstant: bv32)
    returns (next: bv32)
    requires key.Length == keysize / 8 && 4 <= keysize / 8 <= 256
    requires subkey.Length == 4 && subkey != key
    modifies key, subkey
    ensures next == roundConstant + DELTA
    ensures key[..] == KeyStep(old(key[..]), next)
    ensures subkey[..] == key[..4]
  {
    RotateKeyByte(key, keysize);
    assert key[..] == key[..keysize / 8];
    assert old(key[..]) == old(key[..keysize / 8]);
    ghost var rot := key[..];
    assert rot == RotatedKey(old(key[..]));
    CopyLane(key, subkey);
    next := roundConstant + DELTA;
    AddRoundConstant(subkey, next);
    CopyLane(subkey, key);
    assert key[..4] == Bytes(AddConstant(LaneOf(rot[..4]), next));
    assert key[4..] == rot[4..];
    assert key[..] == key[..4] + key[4..];
  }

  /** The four assignments dst[0] = src[0] .. dst[3] = src[3] with which
      the source moves a subkey between the scratch key and subkey. */
  method CopyLane(src: array<bv8>, dst: array<bv8>)
    requires src.Length >= 4 && dst.Length >= 4 && src != dst
    modifies dst
    ensures dst[..4] == src[..4]
    ensures dst[4..] == old(dst[4..])
  {
    dst[0] := src[0];
    dst[1] := src[1];
    dst[2] := src[2];
    dst[3] := src[3];
  }

  /** The scratch key k and the round constant rc are those of the schedule
      of K after t half-rounds. */
  ghost predicate ScheduledAfter(k: seq<bv8>, rc: bv32, K: seq<bv8>, t: nat)
    requires |K| >= 4
  {
    k == KeyAfter(K, t) && rc == RoundConstant(t)
  }

  /** ScheduleStep on a scratch key that has gone through t half-rounds of
      the schedule of K: the key and the round constant move on to half-round
      t + 1 and subkey holds that half-round's subkey. */
  method NextSubkey(key: array<bv8>, keysize: nat, subkey: array<bv8>, roundConstant: bv32,
                    ghost K: seq<bv8>, ghost t: nat)
    returns (next: bv32)
    requires key.Length == keysize / 8 && 4 <= keysize / 8 <= 256
    requires subkey.Length == 4 && subkey != key
    requires |K| >= 4 && ScheduledAfter(key[..], roundConstant, K, t)
    modifies key, subkey
    ensures ScheduledAfter(key[..], next, K, t + 1)
    ensures LaneOf(subkey[..]) == Subkey(K, t + 1)
  {
    ghost var prev := key[..];
    next := ScheduleStep(key, keysize, subkey, roundConstant);
    KeyAfterStep(K, t + 1, prev, roundConstant, key[..], next);
  }

  /** What one ScheduleStep does to the pair (scratch key, round constant)
      is one more step of KeyAfter and RoundConstant. */
  lemma KeyAfterStep(k: seq<bv8>, t: nat, prev: seq<bv8>, rc: bv32, next: seq<bv8>, rc': bv32)
    requires |k| >= 4 && t >= 1
    requires prev == KeyAfter(k, t - 1) && rc == RoundConstant(t - 1)
    requires rc' == rc + DELTA && next == KeyStep(prev, rc')
    ensures next == KeyAfter(k, t) && rc' == RoundConstant(t)
  {
  }

  /** Subkey slot t (4 bytes at offset 4 * t) of a flat schedule table. */
  function Slot(table: seq<bv8>, t: nat): Lane
    requires 4 * t + 4 <= |table|
  {
    LaneOf(table[4 * t..4 * t + 4])
  }

  /** The subkeys of half-rounds 1 .. n, in order. */
  function Subkeys(k: seq<bv8>, n: nat): (r: seq<Lane>)
    requires |k| >= 4
    ensures |r| == n
  {
    if n == 0 then [] else Subkeys(k, n - 1) + [Subkey(k, n)]
  }

  /** Two more half-rounds append their two subkeys. */
  lemma SubkeysTwoMore(k: seq<bv8>, t: nat)
    requires |k| >= 4
    ensures Subkeys(k, t + 2) == Subkeys(k, t) + [Subkey(k, t + 1), Subkey(k, t + 2)]
  {
  }

  /** Entry t - 1 of Subkeys(k, n) is the subkey of half-round t. */
  lemma {:induction false} SubkeysAt(k: seq<bv8>, n: nat, t: nat)
    requires |k| >= 4 && 1 <= t <= n
    ensures Subkeys(k, n)[t - 1] == Subkey(k, t)
  {
    if t < n {
      SubkeysAt(k, n - 1, t);
    }
  }

  /** The table holds the subkeys of key k for `rounds` rounds: slot t is
      the subkey of half-round t, for t in 1 .. 2 * rounds. Slot 0 is not
      constrained. */
  ghost predicate IsSchedule(table: seq<bv8>, k: seq<bv8>, rounds: nat)
    requires |k| >= 4
  {
    && (2 * rounds + 1) * 4 <= |table|
    && forall t | 1 <= t <= 2 * rounds :: Slot(table, t) == Subkey(k, t)
  }

  /** The source's GenerateKey: expands the keysize-bit key into
      2 * rounds + 1 slots of keyarray. The source's table
      ekey[2 * rounds + 1][4] is modelled as an array of its 4-byte rows and
      its final memcpy as a byte-by-byte copy. Slot 0 receives whatever the
      scratch table held there. */
  method GenerateKey(key: array<bv8>, rounds: nat, keyarray: array<bv8>, keysize: nat)
    requires rounds < 256
    requires 4 <= keysize / 8 <= key.Length
    requires keysize / 8 <= 256
    requires (2 * rounds + 1) * 4 <= keyarray.Length
    modifies keyarray
    ensures IsSchedule(keyarray[..], old(key[..keysize / 8]), rounds)
    ensures keyarray[(2 * rounds + 1) * 4..] == old(keyarray[(2 * rounds + 1) * 4..])
  {
    var n := keysize / 8;
    ghost var K := key[..n];
    var k := CopyKey(key, n);
    var ekey := ExpandKey(k, keysize, rounds);
    // Copy the whole table out, slot 0 included.
    Flatten(ekey, keyarray);
    forall t | 1 <= t <= 2 * rounds
      ensures Slot(keyarray[..], t) == Subkey(K, t)
    {
      SubkeysAt(K, 2 * rounds, t);
      assert ekey[1..][t - 1] == ekey[t];
    }
  }

  /** The loop of GenerateKey: 2 * rounds steps of the schedule on the
      scratch key k, subkey t stored in row t of a fresh table. */
  method ExpandKey(k: array<bv8>, keysize: nat, rounds: nat) returns (ekey: array<Lane>)
    requires k.Length == keysize / 8 && 4 <= keysize / 8 <= 256
    modifies k
    ensures fresh(ekey) && ekey.Length == 2 * rounds + 1
    ensures ekey[1..] == Subkeys(old(k[..]), 2 * rounds)
  {
    ghost var K := k[..];
    var subkey := new bv8[4];
    var roundConstant: bv32 := 0;
    ekey := new Lane[2 * rounds + 1];
    var i := 1;
    while i <= 2 * rounds
      invariant 1 <= i <= 2 * rounds + 1
      invariant k[..] == KeyAfter(K, i - 1)
      invariant roundConstant == RoundConstant(i - 1)
      invariant ekey[1..i] == Subkeys(K, i - 1)
      modifies k, subkey, ekey
    {
      ghost var prev, rc := k[..], roundConstant;
      roundConstant := ScheduleStep(k, keysize, subkey, roundConstant);
      KeyAfterStep(K, i, prev, rc, k[..], roundConstant);
      ekey[i] := Lane(subkey[0], subkey[1], subkey[2], subkey[3]);
      assert ekey[1..i + 1] == ekey[1..i] + [ekey[i]];
      i := i + 1;
    }
  }

  /** The memcpy of the table of 4-byte rows into the caller's flat
      keyarray, row after row. */
  method Flatten(ekey: array<Lane>, keyarray: array<bv8>)
    requires ekey.Length * 4 <= keyarray.Length
    modifies keyarray
    ensures forall t | 0 <= t < ekey.Length :: Slot(keyarray[..], t) == ekey[t]
    ensures keyarray[ekey.Length * 4..] == old(keyarray[ekey.Length * 4..])
  {
    var i := 0;
    while i < ekey.Length
      invariant 0 <= i <= ekey.Length
      invariant forall t | 0 <= t < i :: Slot(keyarray[..], t) == ekey[t]
      invariant forall j | 4 * i <= j < keyarray.Length :: keyarray[j] == old(keyarray[j])
    {
      keyarray[4 * i] := ekey[i].a0;
      keyarray[4 * i + 1] := ekey[i].a1;
      keyarray[4 * i + 2] := ekey[i].a2;
      keyarray[4 * i + 3] := ekey[i].a3;
      assert Slot(keyarray[..], i) == ekey[i];
      i := i + 1;
    }
  }

  /** The memcpy of the caller's key into a fresh scratch key. */
  method CopyKey(key: array<bv8>, n: nat) returns (k: array<bv8>)
    requires n <= key.Length
    ensures fresh(k)
    ensures k[..] == key[..n]
  {
    k := new bv8[n];
    forall i | 0 <= i < n {
      k[i] := key[i];
    }
  }
}
