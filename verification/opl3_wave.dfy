// opl3.c: the wave forms of an operator, from tables of logarithms and powers.
module Opl3Wave {

  // logsinrom: how far a quarter of a sine is below its peak
  function LogSinRom(i: int): int {
    if i < 16 then match i {
      case 0 => 0x859 case 1 => 0x6c3 case 2 => 0x607 case 3 => 0x58b case 4 => 0x52e case 5 => 0x4e4 case 6 => 0x4a6 case 7 => 0x471
      case 8 => 0x443 case 9 => 0x41a case 10 => 0x3f5 case 11 => 0x3d3 case 12 => 0x3b5 case 13 => 0x398 case 14 => 0x37e case _ => 0x365
    } else if i < 32 then match i {
      case 16 => 0x34e case 17 => 0x339 case 18 => 0x324 case 19 => 0x311 case 20 => 0x2ff case 21 => 0x2ed case 22 => 0x2dc case 23 => 0x2cd
      case 24 => 0x2bd case 25 => 0x2af case 26 => 0x2a0 case 27 => 0x293 case 28 => 0x286 case 29 => 0x279 case 30 => 0x26d case _ => 0x261
    } else if i < 48 then match i {
      case 32 => 0x256 case 33 => 0x24b case 34 => 0x240 case 35 => 0x236 case 36 => 0x22c case 37 => 0x222 case 38 => 0x218 case 39 => 0x20f
      case 40 => 0x206 case 41 => 0x1fd case 42 => 0x1f5 case 43 => 0x1ec case 44 => 0x1e4 case 45 => 0x1dc case 46 => 0x1d4 case _ => 0x1cd
    } else if i < 64 then match i {
      case 48 => 0x1c5 case 49 => 0x1be case 50 => 0x1b7 case 51 => 0x1b0 case 52 => 0x1a9 case 53 => 0x1a2 case 54 => 0x19b case 55 => 0x195
      case 56 => 0x18f case 57 => 0x188 case 58 => 0x182 case 59 => 0x17c case 60 => 0x177 case 61 => 0x171 case 62 => 0x16b case _ => 0x166
    } else if i < 80 then match i {
      case 64 => 0x160 case 65 => 0x15b case 66 => 0x155 case 67 => 0x150 case 68 => 0x14b case 69 => 0x146 case 70 => 0x141 case 71 => 0x13c
      case 72 => 0x137 case 73 => 0x133 case 74 => 0x12e case 75 => 0x129 case 76 => 0x125 case 77 => 0x121 case 78 => 0x11c case _ => 0x118
    } else if i < 96 then match i {
      case 80 => 0x114 case 81 => 0x10f case 82 => 0x10b case 83 => 0x107 case 84 => 0x103 case 85 => 0xff case 86 => 0xfb case 87 => 0xf8
      case 88 => 0xf4 case 89 => 0xf0 case 90 => 0xec case 91 => 0xe9 case 92 => 0xe5 case 93 => 0xe2 case 94 => 0xde case _ => 0xdb
    } else if i < 112 then match i {
      case 96 => 0xd7 case 97 => 0xd4 case 98 => 0xd1 case 99 => 0xcd case 100 => 0xca case 101 => 0xc7 case 102 => 0xc4 case 103 => 0xc1
      case 104 => 0xbe case 105 => 0xbb case 106 => 0xb8 case 107 => 0xb5 case 108 => 0xb2 case 109 => 0xaf case 110 => 0xac case _ => 0xa9
    } else if i < 128 then match i {
      case 112 => 0xa7 case 113 => 0xa4 case 114 => 0xa1 case 115 => 0x9f case 116 => 0x9c case 117 => 0x99 case 118 => 0x97 case 119 => 0x94
      case 120 => 0x92 case 121 => 0x8f case 122 => 0x8d case 123 => 0x8a case 124 => 0x88 case 125 => 0x86 case 126 => 0x83 case _ => 0x81
    } else if i < 144 then match i {
      case 128 => 0x7f case 129 => 0x7d case 130 => 0x7a case 131 => 0x78 case 132 => 0x76 case 133 => 0x74 case 134 => 0x72 case 135 => 0x70
      case 136 => 0x6e case 137 => 0x6c case 138 => 0x6a case 139 => 0x68 case 140 => 0x66 case 141 => 0x64 case 142 => 0x62 case _ => 0x60
    } else if i < 160 then match i {
      case 144 => 0x5e case 145 => 0x5c case 146 => 0x5b case 147 => 0x59 case 148 => 0x57 case 149 => 0x55 case 150 => 0x53 case 151 => 0x52
      case 152 => 0x50 case 153 => 0x4e case 154 => 0x4d case 155 => 0x4b case 156 => 0x4a case 157 => 0x48 case 158 => 0x46 case _ => 0x45
    } else if i < 176 then match i {
      case 160 => 0x43 case 161 => 0x42 case 162 => 0x40 case 163 => 0x3f case 164 => 0x3e case 165 => 0x3c case 166 => 0x3b case 167 => 0x39
      case 168 => 0x38 case 169 => 0x37 case 170 => 0x35 case 171 => 0x34 case 172 => 0x33 case 173 => 0x31 case 174 => 0x30 case _ => 0x2f
    } else if i < 192 then match i {
      case 176 => 0x2e case 177 => 0x2d case 178 => 0x2b case 179 => 0x2a case 180 => 0x29 case 181 => 0x28 case 182 => 0x27 case 183 => 0x26
      case 184 => 0x25 case 185 => 0x24 case 186 => 0x23 case 187 => 0x22 case 188 => 0x21 case 189 => 0x20 case 190 => 0x1f case _ => 0x1e
    } else if i < 208 then match i {
      case 192 => 0x1d case 193 => 0x1c case 194 => 0x1b case 195 => 0x1a case 196 => 0x19 case 197 => 0x18 case 198 => 0x17 case 199 => 0x17
      case 200 => 0x16 case 201 => 0x15 case 202 => 0x14 case 203 => 0x14 case 204 => 0x13 case 205 => 0x12 case 206 => 0x11 case _ => 0x11
    } else if i < 224 then match i {
      case 208 => 0x10 case 209 => 0xf case 210 => 0xf case 211 => 0xe case 212 => 0xd case 213 => 0xd case 214 => 0xc case 215 => 0xc
      case 216 => 0xb case 217 => 0xa case 218 => 0xa case 219 => 0x9 case 220 => 0x9 case 221 => 0x8 case 222 => 0x8 case _ => 0x7
    } else if i < 240 then match i {
      case 224 => 0x7 case 225 => 0x7 case 226 => 0x6 case 227 => 0x6 case 228 => 0x5 case 229 => 0x5 case 230 => 0x5 case 231 => 0x4
      case 232 => 0x4 case 233 => 0x4 case 234 => 0x3 case 235 => 0x3 case 236 => 0x3 case 237 => 0x2 case 238 => 0x2 case _ => 0x2
    } else match i {
      case 240 => 0x2 case 241 => 0x1 case 242 => 0x1 case 243 => 0x1 case 244 => 0x1 case 245 => 0x1 case 246 => 0x1 case 247 => 0x1
      case 248 => 0x0 case 249 => 0x0 case 250 => 0x0 case 251 => 0x0 case 252 => 0x0 case 253 => 0x0 case 254 => 0x0 case _ => 0x0
    }
  }

  // exprom
  function ExpRom(i: int): int {
    if i < 16 then match i {
      case 0 => 0x7fa case 1 => 0x7f5 case 2 => 0x7ef case 3 => 0x7ea case 4 => 0x7e4 case 5 => 0x7df case 6 => 0x7da case 7 => 0x7d4
      case 8 => 0x7cf case 9 => 0x7c9 case 10 => 0x7c4 case 11 => 0x7bf case 12 => 0x7b9 case 13 => 0x7b4 case 14 => 0x7ae case _ => 0x7a9
    } else if i < 32 then match i {
      case 16 => 0x7a4 case 17 => 0x79f case 18 => 0x799 case 19 => 0x794 case 20 => 0x78f case 21 => 0x78a case 22 => 0x784 case 23 => 0x77f
      case 24 => 0x77a case 25 => 0x775 case 26 => 0x770 case 27 => 0x76a case 28 => 0x765 case 29 => 0x760 case 30 => 0x75b case _ => 0x756
    } else if i < 48 then match i {
      case 32 => 0x751 case 33 => 0x74c case 34 => 0x747 case 35 => 0x742 case 36 => 0x73d case 37 => 0x738 case 38 => 0x733 case 39 => 0x72e
      case 40 => 0x729 case 41 => 0x724 case 42 => 0x71f case 43 => 0x71a case 44 => 0x715 case 45 => 0x710 case 46 => 0x70b case _ => 0x706
    } else if i < 64 then match i {
      case 48 => 0x702 case 49 => 0x6fd case 50 => 0x6f8 case 51 => 0x6f3 case 52 => 0x6ee case 53 => 0x6e9 case 54 => 0x6e5 case 55 => 0x6e0
      case 56 => 0x6db case 57 => 0x6d6 case 58 => 0x6d2 case 59 => 0x6cd case 60 => 0x6c8 case 61 => 0x6c4 case 62 => 0x6bf case _ => 0x6ba
    } else if i < 80 then match i {
      case 64 => 0x6b5 case 65 => 0x6b1 case 66 => 0x6ac case 67 => 0x6a8 case 68 => 0x6a3 case 69 => 0x69e case 70 => 0x69a case 71 => 0x695
      case 72 => 0x691 case 73 => 0x68c case 74 => 0x688 case 75 => 0x683 case 76 => 0x67f case 77 => 0x67a case 78 => 0x676 case _ => 0x671
    } else if i < 96 then match i {
      case 80 => 0x66d case 81 => 0x668 case 82 => 0x664 case 83 => 0x65f case 84 => 0x65b case 85 => 0x657 case 86 => 0x652 case 87 => 0x64e
      case 88 => 0x649 case 89 => 0x645 case 90 => 0x641 case 91 => 0x63c case 92 => 0x638 case 93 => 0x634 case 94 => 0x630 case _ => 0x62b
    } else if i < 112 then match i {
      case 96 => 0x627 case 97 => 0x623 case 98 => 0x61e case 99 => 0x61a case 100 => 0x616 case 101 => 0x612 case 102 => 0x60e case 103 => 0x609
      case 104 => 0x605 case 105 => 0x601 case 106 => 0x5fd case 107 => 0x5f9 case 108 => 0x5f5 case 109 => 0x5f0 case 110 => 0x5ec case _ => 0x5e8
    } else if i < 128 then match i {
      case 112 => 0x5e4 case 113 => 0x5e0 case 114 => 0x5dc case 115 => 0x5d8 case 116 => 0x5d4 case 117 => 0x5d0 case 118 => 0x5cc case 119 => 0x5c8
      case 120 => 0x5c4 case 121 => 0x5c0 case 122 => 0x5bc case 123 => 0x5b8 case 124 => 0x5b4 case 125 => 0x5b0 case 126 => 0x5ac case _ => 0x5a8
    } else if i < 144 then match i {
      case 128 => 0x5a4 case 129 => 0x5a0 case 130 => 0x59c case 131 => 0x599 case 132 => 0x595 case 133 => 0x591 case 134 => 0x58d case 135 => 0x589
      case 136 => 0x585 case 137 => 0x581 case 138 => 0x57e case 139 => 0x57a case 140 => 0x576 case 141 => 0x572 case 142 => 0x56f case _ => 0x56b
    } else if i < 160 then match i {
      case 144 => 0x567 case 145 => 0x563 case 146 => 0x560 case 147 => 0x55c case 148 => 0x558 case 149 => 0x554 case 150 => 0x551 case 151 => 0x54d
      case 152 => 0x549 case 153 => 0x546 case 154 => 0x542 case 155 => 0x53e case 156 => 0x53b case 157 => 0x537 case 158 => 0x534 case _ => 0x530
    } else if i < 176 then match i {
      case 160 => 0x52c case 161 => 0x529 case 162 => 0x525 case 163 => 0x522 case 164 => 0x51e case 165 => 0x51b case 166 => 0x517 case 167 => 0x514
      case 168 => 0x510 case 169 => 0x50c case 170 => 0x509 case 171 => 0x506 case 172 => 0x502 case 173 => 0x4ff case 174 => 0x4fb case _ => 0x4f8
    } else if i < 192 then match i {
      case 176 => 0x4f4 case 177 => 0x4f1 case 178 => 0x4ed case 179 => 0x4ea case 180 => 0x4e7 case 181 => 0x4e3 case 182 => 0x4e0 case 183 => 0x4dc
      case 184 => 0x4d9 case 185 => 0x4d6 case 186 => 0x4d2 case 187 => 0x4cf case 188 => 0x4cc case 189 => 0x4c8 case 190 => 0x4c5 case _ => 0x4c2
    } else if i < 208 then match i {
      case 192 => 0x4be case 193 => 0x4bb case 194 => 0x4b8 case 195 => 0x4b5 case 196 => 0x4b1 case 197 => 0x4ae case 198 => 0x4ab case 199 => 0x4a8
      case 200 => 0x4a4 case 201 => 0x4a1 case 202 => 0x49e case 203 => 0x49b case 204 => 0x498 case 205 => 0x494 case 206 => 0x491 case _ => 0x48e
    } else if i < 224 then match i {
      case 208 => 0x48b case 209 => 0x488 case 210 => 0x485 case 211 => 0x482 case 212 => 0x47e case 213 => 0x47b case 214 => 0x478 case 215 => 0x475
      case 216 => 0x472 case 217 => 0x46f case 218 => 0x46c case 219 => 0x469 case 220 => 0x466 case 221 => 0x463 case 222 => 0x460 case _ => 0x45d
    } else if i < 240 then match i {
      case 224 => 0x45a case 225 => 0x457 case 226 => 0x454 case 227 => 0x451 case 228 => 0x44e case 229 => 0x44b case 230 => 0x448 case 231 => 0x445
      case 232 => 0x442 case 233 => 0x43f case 234 => 0x43c case 235 => 0x439 case 236 => 0x436 case 237 => 0x433 case 238 => 0x430 case _ => 0x42d
    } else match i {
      case 240 => 0x42a case 241 => 0x428 case 242 => 0x425 case 243 => 0x422 case 244 => 0x41f case 245 => 0x41c case 246 => 0x419 case 247 => 0x416
      case 248 => 0x414 case 249 => 0x411 case 250 => 0x40e case 251 => 0x40b case 252 => 0x408 case 253 => 0x406 case 254 => 0x403 case _ => 0x400
    }
  }

  lemma LogSinBounds(i: int)
    requires 0 <= i < 256
    ensures 0 <= LogSinRom(i) <= 0x859
  {}

  lemma ExpBounds(i: int)
    requires 0 <= i < 256
    ensures 0x400 <= ExpRom(i) <= 0x7fa
  {}

  lemma LogSinFalls0(i: int)
    requires 0 <= i < 64
    ensures LogSinRom(i) >= LogSinRom(i + 1)
  {}

  lemma LogSinFalls1(i: int)
    requires 64 <= i < 128
    ensures LogSinRom(i) >= LogSinRom(i + 1)
  {}

  lemma LogSinFalls2(i: int)
    requires 128 <= i < 192
    ensures LogSinRom(i) >= LogSinRom(i + 1)
  {}

  lemma LogSinFalls3(i: int)
    requires 192 <= i < 255
    ensures LogSinRom(i) >= LogSinRom(i + 1)
  {}

  lemma LogSinFalls(i: int)
    requires 0 <= i < 255
    ensures LogSinRom(i) >= LogSinRom(i + 1)
  {
    hide LogSinRom;
    if i < 64 {
      LogSinFalls0(i);
    } else if i < 128 {
      LogSinFalls1(i);
    } else if i < 192 {
      LogSinFalls2(i);
    } else {
      LogSinFalls3(i);
    }
  }

  lemma ExpFalls0(i: int)
    requires 0 <= i < 64
    ensures ExpRom(i) >= ExpRom(i + 1)
  {}

  lemma ExpFalls1(i: int)
    requires 64 <= i < 128
    ensures ExpRom(i) >= ExpRom(i + 1)
  {}

  lemma ExpFalls2(i: int)
    requires 128 <= i < 192
    ensures ExpRom(i) >= ExpRom(i + 1)
  {}

  lemma ExpFalls3(i: int)
    requires 192 <= i < 255
    ensures ExpRom(i) >= ExpRom(i + 1)
  {}

  lemma ExpFalls(i: int)
    requires 0 <= i < 255
    ensures ExpRom(i) >= ExpRom(i + 1)
  {
    hide ExpRom;
    if i < 64 {
      ExpFalls0(i);
    } else if i < 128 {
      ExpFalls1(i);
    } else if i < 192 {
      ExpFalls2(i);
    } else {
      ExpFalls3(i);
    }
  }

  // x >> k
  function Shr(x: nat, k: nat): nat {
    if k == 0 then x else Shr(x / 2, k - 1)
  }

  lemma {:induction false} ShrKeepsOrder(x: nat, y: nat, k: nat)
    requires x <= y
    ensures Shr(x, k) <= Shr(y, k) <= y
  {
    if k > 0 {
      ShrKeepsOrder(x / 2, y / 2, k - 1);
    }
  }

  // OPL3_EnvelopeCalcExp
  function EnvelopeCalcExp(level: nat): nat {
    var l := if level > 0x1fff then 0x1fff else level;
    ExpBounds(l % 256);
    Shr(ExpRom(l % 256) * 2, l / 256)
  }

  lemma ExpRange(level: nat)
    ensures EnvelopeCalcExp(level) <= 4084
  {
    hide ExpRom;
    var l := if level > 0x1fff then 0x1fff else level;
    ExpBounds(l % 256);
    ShrKeepsOrder(0, ExpRom(l % 256) * 2, l / 256);
  }

  lemma ExpRomEnds()
    ensures ExpRom(0) == 0x7fa && ExpRom(255) == 0x400
  {}

  lemma ExpStep(level: nat)
    ensures EnvelopeCalcExp(level + 1) <= EnvelopeCalcExp(level)
  {
    hide ExpRom, Shr;
    if level < 0x1fff {
      var i, k := level % 256, level / 256;
      ExpBounds(i);
      if i < 255 {
        ExpFalls(i);
        ExpBounds(i + 1);
        ShrKeepsOrder(ExpRom(i + 1) * 2, ExpRom(i) * 2, k);
      } else {
        ExpRomEnds();
        ShrOnce(4084, k);
        ShrKeepsOrder(2042, 2048, k);
      }
    }
  }

  lemma ShrOnce(x: nat, k: nat)
    ensures Shr(x, k + 1) == Shr(x / 2, k)
  {}

  // The further below the peak, the smaller.
  lemma {:induction false} ExpKeepsOrder(a: nat, b: nat)
    requires a <= b
    ensures EnvelopeCalcExp(b) <= EnvelopeCalcExp(a)
    decreases b
  {
    hide EnvelopeCalcExp;
    if a < b {
      ExpKeepsOrder(a, b - 1);
      ExpStep(b - 1);
    }
  }

  // ---------- The eight wave forms ----------

  // How far below the peak the wave is at a phase of 0 to 1023, and whether it is negative there.
  datatype Point = Point(level: nat, negative: bool)

  function QuarterSine(phase: nat): nat {
    LogSinBounds(phase % 256);
    LogSinBounds(255 - phase % 256);
    if phase / 256 % 2 == 1 then LogSinRom(255 - phase % 256) else LogSinRom(phase % 256)
  }

  // The same at twice the speed.
  function FastSine(phase: nat): nat {
    LogSinBounds(2 * phase % 256);
    LogSinBounds(2 * (255 - phase % 256) % 256);
    if phase / 128 % 2 == 1 then LogSinRom(2 * (255 - phase % 256) % 256) else LogSinRom(2 * phase % 256)
  }

  const SILENCE: nat := 0x1000

  // OPL3_EnvelopeCalcSin0 to OPL3_EnvelopeCalcSin7, up to the addition of the envelope.
  function Wave(form: nat, phase: nat): Point
    requires form < 8
  {
    var p := phase % 1024;
    match form
    case 0 => Point(QuarterSine(p), p >= 512)
    case 1 => Point(if p >= 512 then SILENCE else QuarterSine(p), false)
    case 2 => Point(QuarterSine(p), false)
    case 3 => Point(if p / 256 % 2 == 1 then SILENCE else QuarterSine(p), false)
    case 4 => Point(if p >= 512 then SILENCE else FastSine(p), p / 256 == 1)
    case 5 => Point(if p >= 512 then SILENCE else FastSine(p), false)
    case 6 => Point(0, p >= 512)
    case _ => Point(8 * (if p >= 512 then 511 - p % 512 else p), p >= 512)
  }

  // An output: the one's complement where the wave is negative.
  function Signed(magnitude: int, negative: bool): int {
    if negative then -magnitude - 1 else magnitude
  }

  // envelope_sin[form]
  function EnvelopeSin(form: nat, phase: nat, envelope: nat): int
    requires form < 8
  {
    var w := Wave(form, phase);
    Signed(EnvelopeCalcExp(w.level + 8 * envelope), w.negative)
  }

  // Every output fits thirteen bits.
  lemma SlotRange(form: nat, phase: nat, envelope: nat)
    requires form < 8
    ensures -4085 <= EnvelopeSin(form, phase, envelope) <= 4084
  {
    hide EnvelopeCalcExp, Wave;
    ExpRange(Wave(form, phase).level + 8 * envelope);
  }

  // A higher envelope is never louder, and never changes the sign.
  lemma EnvelopeAttenuates(form: nat, phase: nat, low: nat, high: nat)
    requires form < 8 && low <= high
    ensures var a, b := EnvelopeSin(form, phase, low), EnvelopeSin(form, phase, high);
            if Wave(form, phase).negative then a <= b < 0 else 0 <= b <= a
  {
    hide EnvelopeCalcExp, Wave;
    ExpKeepsOrder(Wave(form, phase).level + 8 * low, Wave(form, phase).level + 8 * high);
  }

  // The first wave form is a sine: it rises for a quarter, falls the same way, and the second
  // half is the one's complement of the first.
  lemma SineRises(p: nat, envelope: nat)
    requires p < 255
    ensures EnvelopeSin(0, p, envelope) <= EnvelopeSin(0, p + 1, envelope)
  {
    hide LogSinRom, EnvelopeCalcExp;
    LogSinFalls(p);
    ExpKeepsOrder(QuarterSine(p + 1) + 8 * envelope, QuarterSine(p) + 8 * envelope);
  }

  lemma QuarterMirrors(p: nat)
    requires p < 512
    ensures QuarterSine(511 - p) == QuarterSine(p) == QuarterSine(p + 512)
  {
    hide LogSinRom;
    if p < 256 {
      assert p / 256 == 0 && p % 256 == p && (511 - p) / 256 == 1 && (511 - p) % 256 == 255 - p;
    } else {
      assert p / 256 == 1 && p % 256 == p - 256 && (511 - p) / 256 == 0 && (511 - p) % 256 == 511 - p;
    }
    assert (p + 512) / 256 == p / 256 + 2 && (p + 512) % 256 == p % 256;
  }

  lemma SineMirrors(p: nat, envelope: nat)
    requires p < 512
    ensures EnvelopeSin(0, 511 - p, envelope) == EnvelopeSin(0, p, envelope)
    ensures EnvelopeSin(0, p + 512, envelope) == -EnvelopeSin(0, p, envelope) - 1
  {
    hide QuarterSine, EnvelopeCalcExp;
    QuarterMirrors(p);
  }

  // ---------- The shapes of the other forms ----------

  lemma {:induction false} ShrHalves(x: nat, k: nat)
    ensures Shr(x, k + 1) == Shr(x, k) / 2
  {
    if k > 0 { ShrHalves(x / 2, k - 1); }
  }

  // 256 more of level, that is 32 more of the envelope, halve the output.
  lemma LevelHalves(level: nat)
    requires level + 256 <= 0x1fff
    ensures EnvelopeCalcExp(level + 256) == EnvelopeCalcExp(level) / 2
  {
    hide ExpRom, Shr;
    ExpBounds(level % 256);
    assert (level + 256) % 256 == level % 256 && (level + 256) / 256 == level / 256 + 1;
    ShrHalves(ExpRom(level % 256) * 2, level / 256);
  }

  lemma EnvelopeHalves(form: nat, phase: nat, envelope: nat)
    requires form < 8 && Wave(form, phase).level + 8 * envelope + 256 <= 0x1fff
    ensures var w := Wave(form, phase);
      EnvelopeSin(form, phase, envelope + 32)
      == Signed(EnvelopeCalcExp(w.level + 8 * envelope) / 2, w.negative)
  {
    hide EnvelopeCalcExp, Wave;
    LevelHalves(Wave(form, phase).level + 8 * envelope);
  }

  lemma {:induction false} ShrVanishes(x: nat, k: nat)
    requires x < 4096 && k >= 12
    ensures Shr(x, k) == 0
  {
    if k > 12 {
      ShrVanishes(x / 2, k - 1);
    } else {
      assert Shr(x, 12) == Shr(x / 2 / 2 / 2 / 2, 8) by { ShrFourTimes(x, 8); }
      assert Shr(x / 2 / 2 / 2 / 2, 8) == Shr(x / 2 / 2 / 2 / 2 / 2 / 2 / 2 / 2, 4) by {
        ShrFourTimes(x / 2 / 2 / 2 / 2, 4);
      }
      ShrFourTimes(x / 2 / 2 / 2 / 2 / 2 / 2 / 2 / 2, 0);
    }
  }

  lemma ShrFourTimes(x: nat, k: nat)
    ensures Shr(x, k + 4) == Shr(x / 2 / 2 / 2 / 2, k)
  {
    assert Shr(x, k + 4) == Shr(x / 2, k + 3);
    assert Shr(x / 2, k + 3) == Shr(x / 2 / 2, k + 2);
  }

  lemma SilenceIsSilent(level: nat)
    requires level >= SILENCE
    ensures EnvelopeCalcExp(level) == 0
  {
    hide ExpRom, Shr;
    var l := if level > 0x1fff then 0x1fff else level;
    ExpBounds(l % 256);
    ShrVanishes(ExpRom(l % 256) * 2, l / 256);
  }

  // Form 1 is the first half of the sine, form 2 that half twice, and form 3 its quarters that rise.
  lemma HalfSines(p: nat, envelope: nat)
    requires p < 1024
    ensures EnvelopeSin(1, p, envelope) == if p < 512 then EnvelopeSin(0, p, envelope) else 0
    ensures EnvelopeSin(2, p, envelope) == EnvelopeSin(0, p % 512, envelope)
    ensures EnvelopeSin(3, p, envelope) == if p / 256 % 2 == 0 then EnvelopeSin(0, p % 256, envelope) else 0
  {
    hide EnvelopeCalcExp, QuarterSine;
    SilenceIsSilent(SILENCE + 8 * envelope);
    QuarterRepeats(p);
    assert p % 1024 == p && p % 512 % 1024 == p % 512 < 512 && p % 256 % 1024 == p % 256 < 512;
  }

  lemma QuarterRepeats(p: nat)
    requires p < 1024
    ensures QuarterSine(p) == QuarterSine(p % 512)
    ensures p / 256 % 2 == 0 || p / 256 % 2 == 1
    ensures p / 256 % 2 == 0 ==> QuarterSine(p) == QuarterSine(p % 256)
  {
    hide LogSinRom;
    if p >= 512 {
      assert (p - 512) / 256 == p / 256 - 2 && (p - 512) % 256 == p % 256 && p % 512 == p - 512;
    } else {
      assert p % 512 == p;
    }
    assert p % 256 / 256 == 0 && p % 256 % 256 == p % 256;
  }

  // Form 4 is a sine at twice the speed, and then silence: its first quarter is every other step of
  // the sine, it falls as it rose, and its second half is the one's complement of the first.  Form 5
  // is the same without a sign.
  lemma FastSines(p: nat, envelope: nat)
    requires p < 256
    ensures p < 128 ==> EnvelopeSin(4, p, envelope) == EnvelopeSin(0, 2 * p, envelope)
    ensures EnvelopeSin(4, 255 - p, envelope) == EnvelopeSin(4, p, envelope)
    ensures EnvelopeSin(4, p + 256, envelope) == -EnvelopeSin(4, p, envelope) - 1
    ensures EnvelopeSin(4, p + 512, envelope) == EnvelopeSin(4, p + 768, envelope) == 0
    ensures EnvelopeSin(5, p, envelope) == EnvelopeSin(5, p + 256, envelope) == EnvelopeSin(4, p, envelope)
    ensures EnvelopeSin(5, p + 512, envelope) == EnvelopeSin(5, p + 768, envelope) == 0
  {
    hide EnvelopeCalcExp, LogSinRom, FastSine, QuarterSine;
    SilenceIsSilent(SILENCE + 8 * envelope);
    FastSineQuarters(p);
  }

  lemma FastSineQuarters(p: nat)
    requires p < 256
    ensures p < 128 ==> FastSine(p) == QuarterSine(2 * p)
    ensures FastSine(255 - p) == FastSine(p) == FastSine(p + 256)
  {
    hide LogSinRom;
    assert (p + 256) / 128 == p / 128 + 2 && (p + 256) % 256 == p % 256 == p;
    if p < 128 {
      assert 2 * p / 256 == 0 && 2 * p % 256 == 2 * p;
    }
  }

  // Form 6 is a square, at the height that the others come near to.
  lemma Square(p: nat, envelope: nat)
    requires p < 1024
    ensures EnvelopeSin(6, p, envelope)
      == if p < 512 then EnvelopeSin(6, 0, envelope) else -EnvelopeSin(6, 0, envelope) - 1
    ensures forall form, q: nat | form < 8 ::
      -EnvelopeSin(6, 0, envelope) - 1 <= EnvelopeSin(form, q, envelope) <= EnvelopeSin(6, 0, envelope)
  {
    hide EnvelopeCalcExp;
    forall form: nat, q: nat | form < 8
      ensures -EnvelopeSin(6, 0, envelope) - 1 <= EnvelopeSin(form, q, envelope) <= EnvelopeSin(6, 0, envelope)
    {
      NeverHigher(form, q, envelope);
    }
  }

  lemma NeverHigher(form: nat, q: nat, envelope: nat)
    requires form < 8
    ensures -EnvelopeSin(6, 0, envelope) - 1 <= EnvelopeSin(form, q, envelope) <= EnvelopeSin(6, 0, envelope)
  {
    hide EnvelopeCalcExp, Wave;
    assert Wave(6, 0) == Point(0, false) by { SquareStarts(); }
    ExpKeepsOrder(8 * envelope, Wave(form, q).level + 8 * envelope);
    ExpRange(Wave(form, q).level + 8 * envelope);
  }

  lemma SquareStarts()
    ensures Wave(6, 0) == Point(0, false)
  {}

  // Form 7 starts at that height and halves every 32 steps; its second half is the one's complement of
  // the first, backwards.
  lemma Decays(p: nat, envelope: nat)
    requires p < 512
    ensures EnvelopeSin(7, 0, envelope) == EnvelopeSin(6, 0, envelope)
    ensures p + 32 < 512 && 8 * (p + 32 + envelope) <= 0x1fff
      ==> EnvelopeSin(7, p + 32, envelope) == EnvelopeSin(7, p, envelope) / 2
    ensures EnvelopeSin(7, 1023 - p, envelope) == -EnvelopeSin(7, p, envelope) - 1
  {
    hide EnvelopeCalcExp;
    assert (1023 - p) % 512 == 511 - p;
    if 8 * (p + 32 + envelope) <= 0x1fff { LevelHalves(8 * p + 8 * envelope); }
  }

  // ---------- Mixing ----------

  // The four outputs of a channel in a 16-bit accumulator: no addition overflows.
  method MixChannel(out: seq<int>, enabled: bool) returns (mixed: int)
    requires |out| == 4 && forall i | 0 <= i < 4 :: -4085 <= out[i] <= 4084
    ensures mixed == if enabled then out[0] + out[1] + out[2] + out[3] else 0
    ensures -16340 <= mixed <= 16336
  {
    var accm := 0;
    for jj := 0 to 4
      invariant accm == Sum(out, jj) && -4085 * jj <= accm <= 4084 * jj
    {
      accm := Wrap16(accm + out[jj]);
    }
    assert Sum(out, 4) == Sum(out, 2) + out[2] + out[3];
    mixed := if enabled then accm else 0;   // accm & cha
  }

  function Sum(s: seq<int>, n: nat): int
    requires n <= |s|
  {
    if n == 0 then 0 else Sum(s, n - 1) + s[n - 1]
  }

  // A store to a signed 16-bit variable.
  function Wrap16(x: int): (r: int)
    ensures -0x8000 <= r < 0x8000
    ensures -0x8000 <= x < 0x8000 ==> r == x
  {
    (x + 0x8000) % 0x1_0000 - 0x8000
  }

  // OPL3_ClipSample
  function ClipSample(sample: int): (r: int)
    ensures -0x8000 <= r <= 0x7fff
    ensures -0x8000 <= sample <= 0x7fff ==> r == sample
    ensures sample < -0x8000 ==> r == -0x8000
    ensures sample > 0x7fff ==> r == 0x7fff
  {
    if sample > 32767 then 32767 else if sample < -32768 then -32768 else sample
  }
}
