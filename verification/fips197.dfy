// The Advanced Encryption Standard as FIPS 197 defines it: the byte-wise field
// arithmetic, the round transformations, the cipher and the key schedule.  Nothing here
// mentions the lookup tables of aes_prng.c, whose code is proved equal to this.
module Fips197 {

  // One column of the state, or one word of the key schedule: four bytes, row 0 first.
  datatype Column = Column(b0: bv8, b1: bv8, b2: bv8, b3: bv8)

  // The state is its four columns (section 3.5).
  datatype State = State(c0: Column, c1: Column, c2: Column, c3: Column)

  // ---------- Section 4.2: arithmetic in GF(2^8) ----------

  // Section 4.1: addition is the exclusive or.
  function Add(a: bv8, b: bv8): bv8 {
    a ^ b
  }

  function Add4(a: bv8, b: bv8, c: bv8, d: bv8): bv8 {
    Add(Add(Add(a, b), c), d)
  }

  function XTime(a: bv8): bv8 {
    (a << 1) ^ (if a & 0x80 != 0 then 0x1b else 0)
  }

  // Multiplication, one bit of a at a time from the most significant.
  function GfMul(a: bv8, b: bv8): bv8 {
    var r7 := if a & 0x80 != 0 then b else 0;
    var r6 := (r7 << 1) ^ (if r7 & 0x80 != 0 then 0x1b else 0) ^ (if a & 0x40 != 0 then b else 0);
    var r5 := (r6 << 1) ^ (if r6 & 0x80 != 0 then 0x1b else 0) ^ (if a & 0x20 != 0 then b else 0);
    var r4 := (r5 << 1) ^ (if r5 & 0x80 != 0 then 0x1b else 0) ^ (if a & 0x10 != 0 then b else 0);
    var r3 := (r4 << 1) ^ (if r4 & 0x80 != 0 then 0x1b else 0) ^ (if a & 0x08 != 0 then b else 0);
    var r2 := (r3 << 1) ^ (if r3 & 0x80 != 0 then 0x1b else 0) ^ (if a & 0x04 != 0 then b else 0);
    var r1 := (r2 << 1) ^ (if r2 & 0x80 != 0 then 0x1b else 0) ^ (if a & 0x02 != 0 then b else 0);
    (r1 << 1) ^ (if r1 & 0x80 != 0 then 0x1b else 0) ^ (if a & 0x01 != 0 then b else 0)
  }

  // b is the multiplicative inverse of a, with {00} mapped to itself.
  predicate IsInverse(a: bv8, b: bv8) {
    if a == 0 then b == 0 else GfMul(a, b) == 1
  }

  // ---------- Section 5.1: the cipher ----------

  // Section 5.1.1: the affine transformation of the S-box.
  function Affine(b: bv8): bv8 {
    b ^ b.RotateLeft(1) ^ b.RotateLeft(2) ^ b.RotateLeft(3) ^ b.RotateLeft(4) ^ 0x63
  }

  // Its inverse, which recovers the field inverse that an S-box entry was made from.
  function InvAffine(s: bv8): bv8 {
    s.RotateLeft(1) ^ s.RotateLeft(3) ^ s.RotateLeft(6) ^ 0x05
  }

  // Section 5.1.1, figure 7: the S-box in hexadecimal form.
  function SBox(x: int): bv8
  {
    if x < 0x10 then match x {
      case 0x00 => 0x63 case 0x01 => 0x7c case 0x02 => 0x77 case 0x03 => 0x7b case 0x04 => 0xf2 case 0x05 => 0x6b case 0x06 => 0x6f case 0x07 => 0xc5
      case 0x08 => 0x30 case 0x09 => 0x01 case 0x0a => 0x67 case 0x0b => 0x2b case 0x0c => 0xfe case 0x0d => 0xd7 case 0x0e => 0xab case _ => 0x76
    } else if x < 0x20 then match x {
      case 0x10 => 0xca case 0x11 => 0x82 case 0x12 => 0xc9 case 0x13 => 0x7d case 0x14 => 0xfa case 0x15 => 0x59 case 0x16 => 0x47 case 0x17 => 0xf0
      case 0x18 => 0xad case 0x19 => 0xd4 case 0x1a => 0xa2 case 0x1b => 0xaf case 0x1c => 0x9c case 0x1d => 0xa4 case 0x1e => 0x72 case _ => 0xc0
    } else if x < 0x30 then match x {
      case 0x20 => 0xb7 case 0x21 => 0xfd case 0x22 => 0x93 case 0x23 => 0x26 case 0x24 => 0x36 case 0x25 => 0x3f case 0x26 => 0xf7 case 0x27 => 0xcc
      case 0x28 => 0x34 case 0x29 => 0xa5 case 0x2a => 0xe5 case 0x2b => 0xf1 case 0x2c => 0x71 case 0x2d => 0xd8 case 0x2e => 0x31 case _ => 0x15
    } else if x < 0x40 then match x {
      case 0x30 => 0x04 case 0x31 => 0xc7 case 0x32 => 0x23 case 0x33 => 0xc3 case 0x34 => 0x18 case 0x35 => 0x96 case 0x36 => 0x05 case 0x37 => 0x9a
      case 0x38 => 0x07 case 0x39 => 0x12 case 0x3a => 0x80 case 0x3b => 0xe2 case 0x3c => 0xeb case 0x3d => 0x27 case 0x3e => 0xb2 case _ => 0x75
    } else if x < 0x50 then match x {
      case 0x40 => 0x09 case 0x41 => 0x83 case 0x42 => 0x2c case 0x43 => 0x1a case 0x44 => 0x1b case 0x45 => 0x6e case 0x46 => 0x5a case 0x47 => 0xa0
      case 0x48 => 0x52 case 0x49 => 0x3b case 0x4a => 0xd6 case 0x4b => 0xb3 case 0x4c => 0x29 case 0x4d => 0xe3 case 0x4e => 0x2f case _ => 0x84
    } else if x < 0x60 then match x {
      case 0x50 => 0x53 case 0x51 => 0xd1 case 0x52 => 0x00 case 0x53 => 0xed case 0x54 => 0x20 case 0x55 => 0xfc case 0x56 => 0xb1 case 0x57 => 0x5b
      case 0x58 => 0x6a case 0x59 => 0xcb case 0x5a => 0xbe case 0x5b => 0x39 case 0x5c => 0x4a case 0x5d => 0x4c case 0x5e => 0x58 case _ => 0xcf
    } else if x < 0x70 then match x {
      case 0x60 => 0xd0 case 0x61 => 0xef case 0x62 => 0xaa case 0x63 => 0xfb case 0x64 => 0x43 case 0x65 => 0x4d case 0x66 => 0x33 case 0x67 => 0x85
      case 0x68 => 0x45 case 0x69 => 0xf9 case 0x6a => 0x02 case 0x6b => 0x7f case 0x6c => 0x50 case 0x6d => 0x3c case 0x6e => 0x9f case _ => 0xa8
    } else if x < 0x80 then match x {
      case 0x70 => 0x51 case 0x71 => 0xa3 case 0x72 => 0x40 case 0x73 => 0x8f case 0x74 => 0x92 case 0x75 => 0x9d case 0x76 => 0x38 case 0x77 => 0xf5
      case 0x78 => 0xbc case 0x79 => 0xb6 case 0x7a => 0xda case 0x7b => 0x21 case 0x7c => 0x10 case 0x7d => 0xff case 0x7e => 0xf3 case _ => 0xd2
    } else if x < 0x90 then match x {
      case 0x80 => 0xcd case 0x81 => 0x0c case 0x82 => 0x13 case 0x83 => 0xec case 0x84 => 0x5f case 0x85 => 0x97 case 0x86 => 0x44 case 0x87 => 0x17
      case 0x88 => 0xc4 case 0x89 => 0xa7 case 0x8a => 0x7e case 0x8b => 0x3d case 0x8c => 0x64 case 0x8d => 0x5d case 0x8e => 0x19 case _ => 0x73
    } else if x < 0xa0 then match x {
      case 0x90 => 0x60 case 0x91 => 0x81 case 0x92 => 0x4f case 0x93 => 0xdc case 0x94 => 0x22 case 0x95 => 0x2a case 0x96 => 0x90 case 0x97 => 0x88
      case 0x98 => 0x46 case 0x99 => 0xee case 0x9a => 0xb8 case 0x9b => 0x14 case 0x9c => 0xde case 0x9d => 0x5e case 0x9e => 0x0b case _ => 0xdb
    } else if x < 0xb0 then match x {
      case 0xa0 => 0xe0 case 0xa1 => 0x32 case 0xa2 => 0x3a case 0xa3 => 0x0a case 0xa4 => 0x49 case 0xa5 => 0x06 case 0xa6 => 0x24 case 0xa7 => 0x5c
      case 0xa8 => 0xc2 case 0xa9 => 0xd3 case 0xaa => 0xac case 0xab => 0x62 case 0xac => 0x91 case 0xad => 0x95 case 0xae => 0xe4 case _ => 0x79
    } else if x < 0xc0 then match x {
      case 0xb0 => 0xe7 case 0xb1 => 0xc8 case 0xb2 => 0x37 case 0xb3 => 0x6d case 0xb4 => 0x8d case 0xb5 => 0xd5 case 0xb6 => 0x4e case 0xb7 => 0xa9
      case 0xb8 => 0x6c case 0xb9 => 0x56 case 0xba => 0xf4 case 0xbb => 0xea case 0xbc => 0x65 case 0xbd => 0x7a case 0xbe => 0xae case _ => 0x08
    } else if x < 0xd0 then match x {
      case 0xc0 => 0xba case 0xc1 => 0x78 case 0xc2 => 0x25 case 0xc3 => 0x2e case 0xc4 => 0x1c case 0xc5 => 0xa6 case 0xc6 => 0xb4 case 0xc7 => 0xc6
      case 0xc8 => 0xe8 case 0xc9 => 0xdd case 0xca => 0x74 case 0xcb => 0x1f case 0xcc => 0x4b case 0xcd => 0xbd case 0xce => 0x8b case _ => 0x8a
    } else if x < 0xe0 then match x {
      case 0xd0 => 0x70 case 0xd1 => 0x3e case 0xd2 => 0xb5 case 0xd3 => 0x66 case 0xd4 => 0x48 case 0xd5 => 0x03 case 0xd6 => 0xf6 case 0xd7 => 0x0e
      case 0xd8 => 0x61 case 0xd9 => 0x35 case 0xda => 0x57 case 0xdb => 0xb9 case 0xdc => 0x86 case 0xdd => 0xc1 case 0xde => 0x1d case _ => 0x9e
    } else if x < 0xf0 then match x {
      case 0xe0 => 0xe1 case 0xe1 => 0xf8 case 0xe2 => 0x98 case 0xe3 => 0x11 case 0xe4 => 0x69 case 0xe5 => 0xd9 case 0xe6 => 0x8e case 0xe7 => 0x94
      case 0xe8 => 0x9b case 0xe9 => 0x1e case 0xea => 0x87 case 0xeb => 0xe9 case 0xec => 0xce case 0xed => 0x55 case 0xee => 0x28 case _ => 0xdf
    } else match x {
      case 0xf0 => 0x8c case 0xf1 => 0xa1 case 0xf2 => 0x89 case 0xf3 => 0x0d case 0xf4 => 0xbf case 0xf5 => 0xe6 case 0xf6 => 0x42 case 0xf7 => 0x68
      case 0xf8 => 0x41 case 0xf9 => 0x99 case 0xfa => 0x2d case 0xfb => 0x0f case 0xfc => 0xb0 case 0xfd => 0x54 case 0xfe => 0xbb case _ => 0x16
    }
  }

  function SubByte(a: bv8): bv8 {
    SBox(a as int)
  }

  function SubWord(c: Column): Column {
    Column(SubByte(c.b0), SubByte(c.b1), SubByte(c.b2), SubByte(c.b3))
  }

  function SubBytes(s: State): State {
    State(SubWord(s.c0), SubWord(s.c1), SubWord(s.c2), SubWord(s.c3))
  }

  // Section 5.1.2: row r is rotated by r columns.
  function ShiftRows(s: State): State {
    State(Column(s.c0.b0, s.c1.b1, s.c2.b2, s.c3.b3),
          Column(s.c1.b0, s.c2.b1, s.c3.b2, s.c0.b3),
          Column(s.c2.b0, s.c3.b1, s.c0.b2, s.c1.b3),
          Column(s.c3.b0, s.c0.b1, s.c1.b2, s.c2.b3))
  }

  // Section 5.1.3, equation 5.6.
  function MixColumn(c: Column): Column {
    Column(Add4(GfMul(0x02, c.b0), GfMul(0x03, c.b1), c.b2, c.b3),
           Add4(c.b0, GfMul(0x02, c.b1), GfMul(0x03, c.b2), c.b3),
           Add4(c.b0, c.b1, GfMul(0x02, c.b2), GfMul(0x03, c.b3)),
           Add4(GfMul(0x03, c.b0), c.b1, c.b2, GfMul(0x02, c.b3)))
  }

  function MixColumns(s: State): State {
    State(MixColumn(s.c0), MixColumn(s.c1), MixColumn(s.c2), MixColumn(s.c3))
  }

  // Section 5.3.3, equation 5.10.
  function InvMixColumn(c: Column): Column {
    Column(Add4(GfMul(0x0e, c.b0), GfMul(0x0b, c.b1), GfMul(0x0d, c.b2), GfMul(0x09, c.b3)),
           Add4(GfMul(0x09, c.b0), GfMul(0x0e, c.b1), GfMul(0x0b, c.b2), GfMul(0x0d, c.b3)),
           Add4(GfMul(0x0d, c.b0), GfMul(0x09, c.b1), GfMul(0x0e, c.b2), GfMul(0x0b, c.b3)),
           Add4(GfMul(0x0b, c.b0), GfMul(0x0d, c.b1), GfMul(0x09, c.b2), GfMul(0x0e, c.b3)))
  }

  function XorWord(a: Column, b: Column): Column {
    Column(Add(a.b0, b.b0), Add(a.b1, b.b1), Add(a.b2, b.b2), Add(a.b3, b.b3))
  }

  // Section 5.1.4.
  function AddRoundKey(s: State, k: State): State {
    State(XorWord(s.c0, k.c0), XorWord(s.c1, k.c1), XorWord(s.c2, k.c2), XorWord(s.c3, k.c3))
  }

  // ---------- Section 5.2: key expansion ----------

  // The round constants {02}^(i-1).
  function Rcon(i: nat): bv8 {
    if i <= 1 then 1 else XTime(Rcon(i - 1))
  }

  function RotWord(c: Column): Column {
    Column(c.b1, c.b2, c.b3, c.b0)
  }

  // A key is its Nk words.
  type Key = k: seq<Column> | |k| == 4 || |k| == 6 || |k| == 8 witness seq(4, _ => Column(0, 0, 0, 0))

  // Word i of the key schedule, figure 11.
  function KeyWord(key: Key, i: nat): Column {
    if i < |key| then key[i] else
      var temp := KeyWord(key, i - 1);
      XorWord(KeyWord(key, i - |key|),
              if i % |key| == 0 then XorWord(SubWord(RotWord(temp)), Column(Rcon(i / |key|), 0, 0, 0))
              else if |key| > 6 && i % |key| == 4 then SubWord(temp)
              else temp)
  }

  function RoundKey(key: Key, round: nat): State {
    State(KeyWord(key, 4 * round), KeyWord(key, 4 * round + 1),
          KeyWord(key, 4 * round + 2), KeyWord(key, 4 * round + 3))
  }

  // Figure 4: Nr = Nk + 6.
  function NumRounds(key: Key): nat {
    |key| + 6
  }

  // Figure 5: the state after the first `round` rounds, none of them the final one.
  function AfterRounds(key: Key, input: State, round: nat): State {
    if round == 0 then AddRoundKey(input, RoundKey(key, 0))
    else AddRoundKey(MixColumns(ShiftRows(SubBytes(AfterRounds(key, input, round - 1)))), RoundKey(key, round))
  }

  function Cipher(key: Key, input: State): State {
    AddRoundKey(ShiftRows(SubBytes(AfterRounds(key, input, NumRounds(key) - 1))), RoundKey(key, NumRounds(key)))
  }
}
