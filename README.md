# SWAN64 with a precomputed decryption key schedule, in Dafny

This project models the C header `code/c/SWAN64_PRECOMPUTE.h`, the SWAN64
lightweight block cipher: a 64-bit block, 128- or 256-bit keys, and a
Feistel network whose round function is built from three byte-lane layers.

- `lanes.dfy` (module `Lanes`) covers the lane layer: a half-block of four one-byte lanes.
  - `Beta` is the bitsliced 4-bit S-box.
  - `ShiftLanes` rotates lanes 1, 2 and 3 by 1, 3 and 5 bits with the `ROL8` macro.
  - `SwitchLanes` is a cyclic move of the lanes.
  - Each C routine that overwrites its 4-byte argument is a method over `array<bv8>`. It is proved equal to a pure function, and the function's properties are proved as lemmas.
- `key_schedule.dfy` (module `KeySchedule`) covers the key schedule.
  - `RotateKeyByte` moves the key 3 bytes towards index 0.
  - `AddRoundConstant` adds a 32-bit constant to the first four key bytes, read as a little-endian word.
  - A round constant grows by `DELTA` at every half-round.
  - `GenerateKey` records the subkeys of half-rounds 1 .. 2·rounds in a table of 4-byte slots.
  - The pure function `KeyAfter` states the schedule; `Subkey(k, t)` is the subkey of half-round t.
- `feistel.dfy` (module `Swan64`) covers the cipher itself.
  - `EncryptWith` and `DecryptWith` are the Feistel network over any round function, on `Block` values.
  - `Encrypt` and `Decrypt` instantiate them with SWAN64's round function.
  - The byte-buffer methods mirror the C routines step by step: load, half-rounds, round loop, store.
  - `K128EncryptRounds`, `K256EncryptRounds`, `K128DecryptRounds` and `K256DecryptRounds` are the four entry points.
  - The main theorem, `RoundTrip`: decryption with the table that `GenerateKey` builds for the same key and round count undoes encryption. It holds for both key sizes and every round count below 255.
  - `RoundTripBuffers` shows the same on the caller's buffers, with `GenerateKey`, encryption and decryption run in sequence.

Bytes are `bv8` and the round constant is `bv32`, so the C `uint8_t` and
`uint32_t` wrap-around is exact. Multi-byte words are read little-endian.

The source and its comments disagree in two places. The model follows the code in both:
- `ROL8(x, n)` is `(x >> n) | (x << (8 - n))`. Despite its name, this is a rotation to the right. `Lanes.Rol8RotatesRight` states it.
- The comment above `RotateKeyByte` speaks of a right rotation. The code moves every byte to a lower index: byte i becomes byte (i + 3) mod n.

## Model

| member | source | states |
|---|---|---|
| Lanes.SBoxIsPermutation | code/c/SWAN64_PRECOMPUTE.h:71 | the S-box table that Beta bitslices and its inverse table are mutually inverse on 0 .. 15 |
| Lanes.BetaIsSBox | code/c/SWAN64_PRECOMPUTE.h:70-85 | at every bit position j, the nibble of Beta's four output lanes is the S-box applied to the nibble of the input lanes, with a0 the least significant bit |
| Lanes.InvBetaIsInvSBox | code/c/SWAN64_PRECOMPUTE.h:70-85 | the reference inverse InvBeta is the same bitslicing of the inverse S-box |
| Lanes.BetaBijective | code/c/SWAN64_PRECOMPUTE.h:76-85 | Beta is a bijection on lanes: InvBeta undoes it on both sides |
| Lanes.BetaInjective | code/c/SWAN64_PRECOMPUTE.h:76-85 | two lanes have the same Beta image exactly when they are equal |
| Lanes.BetaInPlace | code/c/SWAN64_PRECOMPUTE.h:76-85 | the buffer afterwards holds Beta of the lane it held before (computed in a scratch buffer and copied back) |
| Lanes.Rol8RotatesRight | code/c/SWAN64_PRECOMPUTE.h:62 | ROL8(x, n) is x rotated right by n bits, and rotating left by n restores x |
| Lanes.ShiftLanesBijective | code/c/SWAN64_PRECOMPUTE.h:87-93 | ShiftLanes (lane 0 kept, lanes 1, 2, 3 rotated by A = 1, B = 3, C = 5) is a bijection: InvShiftLanes undoes it on both sides |
| Lanes.ShiftLanesInPlace | code/c/SWAN64_PRECOMPUTE.h:88-93 | the buffer afterwards holds ShiftLanes of the lane it held before |
| Lanes.SwitchLanesPermutes | code/c/SWAN64_PRECOMPUTE.h:96-105 | SwitchLanes is undone by InvSwitchLanes on both sides, and four applications are the identity |
| Lanes.SwitchLanesInPlace | code/c/SWAN64_PRECOMPUTE.h:97-105 | the buffer afterwards holds SwitchLanes of the lane it held before (a[3] wraps to a[0]) |
| KeySchedule.RotatedKeyAt | code/c/SWAN64_PRECOMPUTE.h:107-128 | byte i of the rotated key is byte (i + 3) mod n of the original, for every key length n >= 3 |
| KeySchedule.RotatedKeyPermutes | code/c/SWAN64_PRECOMPUTE.h:107-128 | the rotation keeps the multiset of key bytes |
| KeySchedule.RotateKeyByte | code/c/SWAN64_PRECOMPUTE.h:108-128 | the first keylength / 8 bytes become their rotation by 3 towards index 0, and the rest of the buffer is unchanged (middle loop bound corrected, see Findings) |
| KeySchedule.ShiftKeyDown | code/c/SWAN64_PRECOMPUTE.h:117-121 | bytes 0 .. n - 4 receive bytes 3 .. n - 1, and the rest is unchanged |
| KeySchedule.RestoreHead | code/c/SWAN64_PRECOMPUTE.h:123-127 | the three saved bytes become the last three key bytes, and nothing else changes |
| KeySchedule.ShiftLoopOverreads | code/c/SWAN64_PRECOMPUTE.h:117-121 | the last two passes of the middle loop read key[n] and key[n + 1], past an n-byte key |
| KeySchedule.ShiftKeyDownAsWritten | code/c/SWAN64_PRECOMPUTE.h:117-121 | with the source's bound, bytes n - 3 and n - 2 receive the two bytes past the key, and byte n onwards is unchanged |
| KeySchedule.RotateKeyByteAsWritten | code/c/SWAN64_PRECOMPUTE.h:108-128 | with the source's bound the result is the same rotation, but only on a buffer with two spare bytes after the key |
| KeySchedule.LEBytesOfLE32 | code/c/SWAN64_PRECOMPUTE.h:152-163 | reading four bytes as a little-endian word and storing it back gives the same bytes |
| KeySchedule.AddConstant | code/c/SWAN64_PRECOMPUTE.h:152-163 | the new subkey, read little-endian, is the old value plus sum modulo 2^32 |
| KeySchedule.AddRoundConstant | code/c/SWAN64_PRECOMPUTE.h:152-163 | the first four bytes become AddConstant of their old value, and the rest is unchanged |
| KeySchedule.SubkeyStep | code/c/SWAN64_PRECOMPUTE.h:294-312 | the subkey of half-round t is the rotated previous key state with RoundConstant(t) added; the other key bytes are those of the rotated key |
| KeySchedule.CopyLane | code/c/SWAN64_PRECOMPUTE.h:211-214 | dst[0 .. 4] equals src[0 .. 4], and the rest of dst is unchanged |
| KeySchedule.ScheduleStep | code/c/SWAN64_PRECOMPUTE.h:210-223 | one half-round of the schedule: the round constant advances by DELTA, the key becomes KeyStep of the old key, and subkey holds the new first four key bytes |
| KeySchedule.KeyAfterStep | code/c/SWAN64_PRECOMPUTE.h:294-312 | one ScheduleStep moves the pair (scratch key, round constant) from half-round t - 1 to half-round t |
| KeySchedule.NextSubkey | code/c/SWAN64_PRECOMPUTE.h:210-223 | from the schedule state after t half-rounds, the key and constant move on to t + 1 and subkey holds Subkey(K, t + 1) |
| KeySchedule.SubkeysAt | code/c/SWAN64_PRECOMPUTE.h:304-307 | entry t - 1 of the subkey sequence is the subkey of half-round t |
| KeySchedule.ExpandKey | code/c/SWAN64_PRECOMPUTE.h:292-312 | rows 1 .. 2·rounds of the fresh table are the subkeys of half-rounds 1 .. 2·rounds, in order |
| KeySchedule.Flatten | code/c/SWAN64_PRECOMPUTE.h:314 | slot t of the flat keyarray is row t of the table, and the bytes after the table are unchanged |
| KeySchedule.CopyKey | code/c/SWAN64_PRECOMPUTE.h:290 | the scratch key is a fresh copy of the first n bytes |
| KeySchedule.GenerateKey | code/c/SWAN64_PRECOMPUTE.h:288-316 | slot t of keyarray (t = 1 .. 2·rounds) is the subkey of half-round t of the key, and bytes past the table are unchanged |
| Swan64.BlockOfBytes | code/c/SWAN64_PRECOMPUTE.h:276-284 | storing a block as 8 bytes and reading it back gives the block |
| Swan64.BlockBytesOf | code/c/SWAN64_PRECOMPUTE.h:189-198 | reading 8 bytes as a block and storing it back gives the bytes |
| Swan64.DecryptRoundInverts | code/c/SWAN64_PRECOMPUTE.h:344-417 | a decryption round with the two subkeys swapped undoes an encryption round and vice versa, for any round function |
| Swan64.EncryptWithExtend | code/c/SWAN64_PRECOMPUTE.h:200-273 | two more subkeys allow one more encryption round on the current state |
| Swan64.DecryptUnwinds | code/c/SWAN64_PRECOMPUTE.h:344-417 | decryption round i, reading slot 2r + 1 - (2i - 1) and then slot 2r + 1 - 2i, undoes encryption round r + 1 - i; after n rounds the state is the encryption after r - n rounds |
| Swan64.ScheduleHolds | code/c/SWAN64_PRECOMPUTE.h:294-312 | a schedule table holds exactly the subkeys that encryption derives on the fly |
| Swan64.RoundTrip | code/c/SWAN64_PRECOMPUTE.h:319-429 | decrypting with the schedule table of the same key and round count recovers every plaintext block |
| Swan64.LoadBlock | code/c/SWAN64_PRECOMPUTE.h:189-198 | L and R hold the left and right halves of the first 8 input bytes |
| Swan64.StoreBlock | code/c/SWAN64_PRECOMPUTE.h:276-284 | the first 8 output bytes hold the block (L, R), and the rest is unchanged |
| Swan64.XorInPlace | code/c/SWAN64_PRECOMPUTE.h:225-228 | dst becomes the lane-wise XOR of its old value with src |
| Swan64.MixHalf | code/c/SWAN64_PRECOMPUTE.h:225-237 | target is XORed with SwitchLanes(Beta(temp XOR subkey)) |
| Swan64.EncryptHalfRound | code/c/SWAN64_PRECOMPUTE.h:202-237 | the schedule advances one half-round, and target is XORed with the round function of x under that half-round's subkey |
| Swan64.EncryptRoundStep | code/c/SWAN64_PRECOMPUTE.h:201-272 | one loop iteration takes the block from n to n + 1 encryption rounds, and the schedule from 2n to 2n + 2 half-rounds |
| Swan64.EncryptLoop | code/c/SWAN64_PRECOMPUTE.h:200-273 | after the loop, (L, R) is the block encrypted for `rounds` rounds with the subkeys of the key |
| Swan64.EncryptBlock | code/c/SWAN64_PRECOMPUTE.h:177-285 | the first 8 cipher bytes are Encrypt of the first 8 plaintext bytes under the keysize-bit key; only cipher is written, and only its first 8 bytes |
| Swan64.LoadSlot | code/c/SWAN64_PRECOMPUTE.h:356-359 | subkey holds slot s of the table |
| Swan64.DecryptHalfRound | code/c/SWAN64_PRECOMPUTE.h:347-373 | target is XORed with the round function of x under slot s of the table |
| Swan64.DecryptRoundStep | code/c/SWAN64_PRECOMPUTE.h:345-416 | one loop iteration takes the block from n to n + 1 decryption rounds |
| Swan64.DecryptLoop | code/c/SWAN64_PRECOMPUTE.h:344-417 | after the loop, (L, R) is the block decrypted for `rounds` rounds with the table |
| Swan64.DecryptBlock | code/c/SWAN64_PRECOMPUTE.h:319-429 | the first 8 plaintext bytes are Decrypt of the first 8 ciphertext bytes under the first 2·rounds + 1 table slots; only plain is written |
| Swan64.K128EncryptRounds | code/c/SWAN64_PRECOMPUTE.h:177-285 | encryption under the first 16 key bytes, as EncryptBlock states |
| Swan64.K256EncryptRounds | code/c/SWAN64_PRECOMPUTE.h:431-546 | encryption under the first 32 key bytes, as EncryptBlock states |
| Swan64.K128DecryptRounds | code/c/SWAN64_PRECOMPUTE.h:319-429 | decryption with the table, as DecryptBlock states |
| Swan64.K256DecryptRounds | code/c/SWAN64_PRECOMPUTE.h:548-672 | decryption with the table, as DecryptBlock states |
| Swan64.IsSchedulePrefix | code/c/SWAN64_PRECOMPUTE.h:326-327 | the first 2·rounds + 1 slots of a schedule table, the part the decryption copies, are still a schedule table |
| Swan64.RoundTripBuffers | code/c/SWAN64_PRECOMPUTE.h:288-316 | GenerateKey, then encryption, then decryption on the caller's buffers gives back the original 8 plaintext bytes |

## Left out

- KeySchedule.RoundConstant: it is defined by repeated 32-bit addition of DELTA, as the source computes it. The closed form t·DELTA mod 2^32 is not proved: the bit-vector/integer conversions it needs are too costly for the verifier.
- KeySchedule.GenerateKey: slot 0 of the table is left unconstrained. The source copies the uninitialised row ekey[0] into keyarray, and decryption never reads it.
- Swan64.EncryptBlock and Swan64.DecryptBlock require rounds < 255. With the source's byte-wide loop counter, `i <= rounds` never fails for rounds = 255, so the loop does not terminate.
- Swan64.EncryptBlock: encryption allocates its scratch lanes tempL, tempR and subkey in every round, where the source declares them once per call. The state visible to the caller is the same.
- InvRotateKeyByte, MINUSRoundConstant, INV_DELTA_KEY128 and INV_DELTA_KEY256 are not modelled: no routine calls them, and their only uses are commented out.
- The convenience macros that use ROUNDS_128 and ROUNDS_256 are not modelled: those names are not defined anywhere.
- `AddRoundConstant` reinterprets the subkey through a `uint32_t *`. The model reads it little-endian, so it does not cover big-endian hosts. It also leaves out the alignment of that cast.
- Variable-length arrays and `memcpy` are modelled as fresh arrays and copies.
- Constant-time behaviour, the `#include`s and modes of operation are outside this header's logic.

## Findings

| source | as written | input that shows it | evidently intended | confidence | as-written member | corrected member |
|---|---|---|---|---|---|---|
| code/c/SWAN64_PRECOMPUTE.h:118-121 | the middle loop of RotateKeyByte runs for i < keylength / 8 - 1 and reads key[i + 3], so its last two passes read key[n] and key[n + 1] past the n-byte key | any call, e.g. keylength = 128 on the 16-byte local key of SWAN64_K128_encrypt_rounds reads key[16] and key[17] | the loop bound keylength / 8 - 3; the two extra passes only write bytes that the last loop overwrites | high for the out-of-bounds read, not executed | KeySchedule.RotateKeyByteAsWritten | KeySchedule.RotateKeyByte |
