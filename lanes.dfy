/** The lane layer of SWAN64: a 4-byte half-block seen as four one-byte
    lanes, the bitsliced nonlinear layer Beta and the two affine layers
    ShiftLanes and SwitchLanes. Each C routine overwrites its 4-byte
    argument in place; here a pure function states what the routine
    computes and a method over array<bv8> refines it. */
module Lanes {

  /** A half-block: four one-byte lanes, a0 .. a3 (the C array a[0..4)). */
  datatype Lane = Lane(a0: bv8, a1: bv8, a2: bv8, a3: bv8)

  /** The lane held by a 4-byte buffer. */
  function LaneOf(s: seq<bv8>): (l: Lane)
    requires |s| == 4
  {
    Lane(s[0], s[1], s[2], s[3])
  }

  /** The 4-byte buffer holding a lane. */
  function Bytes(l: Lane): (s: seq<bv8>)
    ensures |s| == 4
  {
    [l.a0, l.a1, l.a2, l.a3]
  }

  /** Lane-wise exclusive or, the mixing step of every half-round. */
  function Xor(x: Lane, y: Lane): Lane
  {
    Lane(x.a0 ^ y.a0, x.a1 ^ y.a1, x.a2 ^ y.a2, x.a3 ^ y.a3)
  }

  lemma XorCancel(x: Lane, y: Lane)
    ensures Xor(Xor(x, y), y) == x
  {
  }

  // ---------------------------------------------------------------------
  // Nonlinear layer

  /** The 4-bit S-box that Beta evaluates at each of the 8 bit positions;
      a0 supplies the least significant bit of the nibble. */
  const SBox: seq<bv8> := [0x1, 0x2, 0xC, 0x5, 0x7, 0x8, 0xA, 0xF, 0x4, 0xD, 0xB, 0xE, 0x9, 0x6, 0x0, 0x3]

  /** The inverse table of SBox. */
  const InvSBox: seq<bv8> := [0xE, 0x0, 0x1, 0xF, 0x8, 0x3, 0xD, 0x4, 0x5, 0xC, 0x6, 0xA, 0x2, 0x9, 0xB, 0x7]

  /** The nibble formed by bit j of a3, a2, a1, a0 (a0 is the lsb). */
  function Nibble(a: Lane, j: bv8): (n: bv8)
    requires j < 8
    ensures n < 16
  {
    ((a.a0 >> j) & 1) | (((a.a1 >> j) & 1) << 1) | (((a.a2 >> j) & 1) << 2) | (((a.a3 >> j) & 1) << 3)
  }

  lemma SBoxIsPermutation()
    ensures forall n: bv8 | n < 16 :: SBox[n] < 16 && InvSBox[SBox[n]] == n
    ensures forall n: bv8 | n < 16 :: InvSBox[n] < 16 && SBox[InvSBox[n]] == n
  {
  }

  // The four coordinate functions of SBox in algebraic normal form, with
  // x0 the least significant input bit. Applied to whole bytes they
  // evaluate the S-box at all 8 bit positions at once.
  function BetaRow0(x0: bv8, x1: bv8, x2: bv8, x3: bv8): bv8
  {
    !(x0 ^ x1 ^ x3 ^ (x2 & x3))
  }

  function BetaRow1(x0: bv8, x1: bv8, x2: bv8, x3: bv8): bv8
  {
    x0 ^ (x0 & x1) ^ x2 ^ (x0 & x3) ^ (x1 & x3) ^ (x0 & x1 & x3) ^ (x2 & x3) ^ (x0 & x2 & x3) ^ (x1 & x2 & x3)
  }

  function BetaRow2(x0: bv8, x1: bv8, x2: bv8, x3: bv8): bv8
  {
    x1 ^ x2 ^ (x0 & x2) ^ x3 ^ (x0 & x1 & x3) ^ (x1 & x2 & x3)
  }

  function BetaRow3(x0: bv8, x1: bv8, x2: bv8, x3: bv8): bv8
  {
    x1 ^ (x0 & x1) ^ (x0 & x2) ^ (x0 & x3) ^ (x2 & x3) ^ (x0 & x2 & x3)
  }

  /** The bitsliced S-box of the nonlinear layer. */
  function Beta(a: Lane): Lane
  {
    Lane(BetaRow0(a.a0, a.a1, a.a2, a.a3), BetaRow1(a.a0, a.a1, a.a2, a.a3),
         BetaRow2(a.a0, a.a1, a.a2, a.a3), BetaRow3(a.a0, a.a1, a.a2, a.a3))
  }

  /** The bitsliced inverse S-box (algebraic normal form of InvSBox). The
      cipher never evaluates it; it witnesses that Beta is a bijection. */
  function InvBeta(a: Lane): Lane
  {
    Lane(
      a.a1 ^ (a.a0 & a.a2) ^ a.a3 ^ (a.a0 & a.a3) ^ (a.a0 & a.a1 & a.a3) ^ (a.a2 & a.a3) ^ (a.a0 & a.a2 & a.a3),
      !(a.a0 ^ a.a1 ^ a.a2 ^ (a.a1 & a.a2) ^ (a.a0 & a.a1 & a.a2) ^ a.a3 ^ (a.a0 & a.a3) ^ (a.a0 & a.a2 & a.a3)),
      !(a.a0 ^ a.a1 ^ a.a2 ^ (a.a0 & a.a2) ^ (a.a0 & a.a3) ^ (a.a1 & a.a3) ^ (a.a0 & a.a1 & a.a3) ^ (a.a0 & a.a2 & a.a3)),
      !(a.a0 ^ a.a1 ^ (a.a1 & a.a2) ^ a.a3 ^ (a.a1 & a.a3)))
  }

  /** Every bit position j of Beta's four output lanes holds SBox applied to
      the nibble at bit position j of the input lanes. */
  lemma BetaIsSBox(a: Lane, j: bv8)
    requires j < 8
    ensures Nibble(Beta(a), j) == SBox[Nibble(a, j)]
  {
  }

  /** InvBeta is the same bitslicing of InvSBox. */
  lemma InvBetaIsInvSBox(a: Lane, j: bv8)
    requires j < 8
    ensures Nibble(InvBeta(a), j) == InvSBox[Nibble(a, j)]
  {
  }

  // One output lane of each composition at a time keeps the bit-vector
  // reasoning small.
  lemma InvBetaBeta0(a: Lane) ensures InvBeta(Beta(a)).a0 == a.a0 {}
  lemma InvBetaBeta1(a: Lane) ensures InvBeta(Beta(a)).a1 == a.a1 {}
  lemma InvBetaBeta2(a: Lane) ensures InvBeta(Beta(a)).a2 == a.a2 {}
  lemma InvBetaBeta3(a: Lane) ensures InvBeta(Beta(a)).a3 == a.a3 {}
  lemma BetaInvBeta0(a: Lane) ensures Beta(InvBeta(a)).a0 == a.a0 {}
  lemma BetaInvBeta1(a: Lane) ensures Beta(InvBeta(a)).a1 == a.a1 {}
  lemma BetaInvBeta2(a: Lane) ensures Beta(InvBeta(a)).a2 == a.a2 {}
  lemma BetaInvBeta3(a: Lane) ensures Beta(InvBeta(a)).a3 == a.a3 {}

  /** Beta is a bijection on lanes: InvBeta undoes it on both sides. */
  lemma BetaBijective(a: Lane)
    ensures InvBeta(Beta(a)) == a
    ensures Beta(InvBeta(a)) == a
  {
    InvBetaBeta0(a); InvBetaBeta1(a); InvBetaBeta2(a); InvBetaBeta3(a);
    BetaInvBeta0(a); BetaInvBeta1(a); BetaInvBeta2(a); BetaInvBeta3(a);
  }

  lemma BetaInjective(a: Lane, a': Lane)
    ensures Beta(a) == Beta(a') <==> a == a'
  {
    BetaBijective(a);
    BetaBijective(a');
  }

  // ---------------------------------------------------------------------
  // Affine layers

  /** The source's ROL8 macro, evaluated on a byte. */
  function Rol8(x: bv8, n: bv8): bv8
    requires 0 < n < 8
  {
    (x >> n) | (x << (8 - n))
  }

  /** Despite its name ROL8 rotates to the RIGHT: the bits shifted out at
      the bottom re-enter at the top, and rotating left undoes it. */
  lemma Rol8RotatesRight(x: bv8, n: bv8)
    requires 0 < n < 8
    ensures Rol8(x, n) == x.RotateRight(n as nat)
    ensures Rol8(x, n).RotateLeft(n as nat) == x
  {
  }

  /** Lane 0 is kept, lanes 1, 2, 3 are rotated (right) by the source's
      rotation amounts A = 1, B = 3 and C = 5 bits. */
  function ShiftLanes(a: Lane): Lane
  {
    Lane(a.a0, Rol8(a.a1, 1), Rol8(a.a2, 3), Rol8(a.a3, 5))
  }

  /** Reference inverse of ShiftLanes: rotate lanes 1, 2, 3 back left. */
  function InvShiftLanes(a: Lane): Lane
  {
    Lane(a.a0, a.a1.RotateLeft(1), a.a2.RotateLeft(3), a.a3.RotateLeft(5))
  }

  lemma InvShiftLanesShiftLanes(a: Lane) ensures InvShiftLanes(ShiftLanes(a)) == a {}
  lemma ShiftLanesInvShiftLanes(a: Lane) ensures ShiftLanes(InvShiftLanes(a)) == a {}

  /** ShiftLanes is a bijection on lanes: InvShiftLanes undoes it on both
      sides. */
  lemma ShiftLanesBijective(a: Lane)
    ensures InvShiftLanes(ShiftLanes(a)) == a
    ensures ShiftLanes(InvShiftLanes(a)) == a
  {
    InvShiftLanesShiftLanes(a);
    ShiftLanesInvShiftLanes(a);
  }

  /** Cyclic move of the four lanes one position up: lane 3 wraps to 0. */
  function SwitchLanes(a: Lane): Lane
  {
    Lane(a.a3, a.a0, a.a1, a.a2)
  }

  /** Reference inverse of SwitchLanes: move the lanes one position down. */
  function InvSwitchLanes(a: Lane): Lane
  {
    Lane(a.a1, a.a2, a.a3, a.a0)
  }

  /** SwitchLanes permutes the lanes: it has an inverse, and applying it
      four times is the identity. */
  lemma SwitchLanesPermutes(a: Lane)
    ensures InvSwitchLanes(SwitchLanes(a)) == a
    ensures SwitchLanes(InvSwitchLanes(a)) == a
    ensures SwitchLanes(SwitchLanes(SwitchLanes(SwitchLanes(a)))) == a
  {
  }

  // ---------------------------------------------------------------------
  // The in-place routines

  /** Beta on a caller's 4-byte buffer (the result is built in a scratch
      buffer and copied back). */
  method BetaInPlace(a: array<bv8>)
    requires a.Length == 4
    modifies a
    ensures LaneOf(a[..]) == Beta(LaneOf(old(a[..])))
  {
    var b := new bv8[4];
    b[0] := BetaRow0(a[0], a[1], a[2], a[3]);
    b[1] := BetaRow1(a[0], a[1], a[2], a[3]);
    b[2] := BetaRow2(a[0], a[1], a[2], a[3]);
    b[3] := BetaRow3(a[0], a[1], a[2], a[3]);
    a[0], a[1], a[2], a[3] := b[0], b[1], b[2], b[3];
  }

  method ShiftLanesInPlace(a: array<bv8>)
    requires a.Length == 4
    modifies a
    ensures LaneOf(a[..]) == ShiftLanes(LaneOf(old(a[..])))
  {
    a[1] := Rol8(a[1], 1);
    a[2] := Rol8(a[2], 3);
    a[3] := Rol8(a[3], 5);
  }

  method SwitchLanesInPlace(a: array<bv8>)
    requires a.Length == 4
    modifies a
    ensures LaneOf(a[..]) == SwitchLanes(LaneOf(old(a[..])))
  {
    var temp := a[3];
    a[3] := a[2];
    a[2] := a[1];
    a[1] := a[0];
    a[0] := temp;
  }
}
