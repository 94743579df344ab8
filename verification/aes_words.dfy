// The state as aes_prng.c keeps it: four 32-bit words whose little-endian bytes are the
// columns.  Each macro of the C file is proved to be one FIPS 197 transformation of the
// columns it packs.
module AesWords {
  import opened Fips197
  import opened AesTables
  import opened AesTablesCorrect

  function ToWord(c: Column): bv32 {
    Word(c.b0, c.b1, c.b2, c.b3)
  }

  function ToWords(s: State): (w: seq<bv32>)
    ensures |w| == 4
  {
    [ToWord(s.c0), ToWord(s.c1), ToWord(s.c2), ToWord(s.c3)]
  }

  // get_byte: byte n of x, least significant first.
  function GetByte(x: bv32, n: nat): bv8
    requires n < 4
  {
    match n
    case 0 => (x & 0xff) as bv8
    case 1 => ((x >> 8) & 0xff) as bv8
    case 2 => ((x >> 16) & 0xff) as bv8
    case _ => ((x >> 24) & 0xff) as bv8
  }

  // aes_ror32 by 8, 16 or 24.
  function Ror(x: bv32, shift: bv6): bv32
    requires 0 < shift < 32
  {
    (x >> shift) | (x << (32 - shift))
  }

  // star_x: the four bytes of a word multiplied by {02}.
  function StarX(x: bv32): bv32 {
    Xor((x & 0x7f7f7f7f) << 1, ((x & 0x80808080) >> 7) * 0x1b)
  }

  // imix_col
  function IMixCol(x: bv32): bv32 {
    var u := StarX(x);
    var v := StarX(u);
    var w := StarX(v);
    var t := Xor(w, x);
    Xor(Xor(Xor(u, v), w), Xor(Xor(Ror(Xor(u, t), 8), Ror(Xor(v, t), 16)), Ror(t, 24)))
  }

  function Xor(x: bv32, y: bv32): bv32 {
    x ^ y
  }

  function Xor4(x: bv32, y: bv32, z: bv32, w: bv32): bv32 {
    Xor(Xor(Xor(x, y), z), w)
  }

  // ls_box
  function LsBox(x: bv32): bv32 {
    Xor4(Fl0(GetByte(x, 0) as int), Fl1(GetByte(x, 1) as int),
         Fl2(GetByte(x, 2) as int), Fl3(GetByte(x, 3) as int))
  }

  // f_rn: one word of a round, from bi[n], bi[(n + 1) & 3], bi[(n + 2) & 3], bi[(n + 3) & 3]
  // and the round key word.
  function FRn(a: bv32, b: bv32, c: bv32, d: bv32, k: bv32): bv32 {
    Xor(Xor4(Ft0(GetByte(a, 0) as int), Ft1(GetByte(b, 1) as int),
             Ft2(GetByte(c, 2) as int), Ft3(GetByte(d, 3) as int)), k)
  }

  // f_rl: the same for the last round.
  function FRl(a: bv32, b: bv32, c: bv32, d: bv32, k: bv32): bv32 {
    Xor(Xor4(Fl0(GetByte(a, 0) as int), Fl1(GetByte(b, 1) as int),
             Fl2(GetByte(c, 2) as int), Fl3(GetByte(d, 3) as int)), k)
  }

  lemma GetByteOfWord(c: Column)
    ensures GetByte(ToWord(c), 0) == c.b0 && GetByte(ToWord(c), 1) == c.b1
    ensures GetByte(ToWord(c), 2) == c.b2 && GetByte(ToWord(c), 3) == c.b3
  {}

  lemma XorToWord(a: Column, b: Column)
    ensures Xor(ToWord(a), ToWord(b)) == ToWord(XorWord(a, b))
  {}

  lemma Xor4ToWord(a: Column, b: Column, c: Column, d: Column)
    ensures Xor4(ToWord(a), ToWord(b), ToWord(c), ToWord(d)) ==
            ToWord(Column(Add4(a.b0, b.b0, c.b0, d.b0), Add4(a.b1, b.b1, c.b1, d.b1),
                          Add4(a.b2, b.b2, c.b2, d.b2), Add4(a.b3, b.b3, c.b3, d.b3)))
  {
    hide ToWord, Xor, Add;
    XorToWord(a, b);
    XorToWord(XorWord(a, b), c);
    XorToWord(XorWord(XorWord(a, b), c), d);
  }

  lemma Add4Lane(a: bv8)
    ensures Add4(a, 0, 0, 0) == a && Add4(0, a, 0, 0) == a && Add4(0, 0, a, 0) == a && Add4(0, 0, 0, a) == a
  {}

  lemma RotToWord(c: Column)
    ensures Ror(ToWord(c), 8) == ToWord(RotWord(c))
  {}

  lemma Rot2ToWord(c: Column)
    ensures Ror(ToWord(c), 16) == ToWord(RotWord(RotWord(c)))
  {}

  lemma Rot3ToWord(c: Column)
    ensures Ror(ToWord(c), 24) == ToWord(RotWord(RotWord(RotWord(c))))
  {}

  // crypto_fl_tab holds one S-box byte in each lane.
  lemma LastTables(x: bv8)
    ensures Fl0(x as int) == ToWord(Column(SubByte(x), 0, 0, 0))
    ensures Fl1(x as int) == ToWord(Column(0, SubByte(x), 0, 0))
    ensures Fl2(x as int) == ToWord(Column(0, 0, SubByte(x), 0))
    ensures Fl3(x as int) == ToWord(Column(0, 0, 0, SubByte(x)))
  {
    hide SBox, Fl0, Fl1, Fl2, Fl3, Ft0, Ft1, Ft2, Ft3, Word, XTime, Add;
    TablesCorrect(x as int);
  }

  lemma LastLanes(a: bv8, b: bv8, c: bv8, d: bv8)
    ensures Xor4(Fl0(a as int), Fl1(b as int), Fl2(c as int), Fl3(d as int)) ==
            ToWord(SubWord(Column(a, b, c, d)))
  {
    hide SubByte, Fl0, Fl1, Fl2, Fl3, ToWord, Xor4, Add4;
    LastTables(a);
    LastTables(b);
    LastTables(c);
    LastTables(d);
    Add4Lane(SubByte(a));
    Add4Lane(SubByte(b));
    Add4Lane(SubByte(c));
    Add4Lane(SubByte(d));
    Xor4ToWord(Column(SubByte(a), 0, 0, 0), Column(0, SubByte(b), 0, 0),
               Column(0, 0, SubByte(c), 0), Column(0, 0, 0, SubByte(d)));
  }

  lemma LsBoxIsSubWord(c: Column)
    ensures LsBox(ToWord(c)) == ToWord(SubWord(c))
  {
    hide SBox, Fl0, Fl1, Fl2, Fl3, ToWord, GetByte, Xor4, SubWord;
    GetByteOfWord(c);
    LastLanes(c.b0, c.b1, c.b2, c.b3);
  }

  lemma Times2And3(b: bv8)
    ensures GfMul(0x02, b) == XTime(b) && GfMul(0x03, b) == Add(XTime(b), b)
  {}

  // crypto_ft_tab holds one S-box byte times a column of the MixColumns matrix.
  lemma RoundTables(x: bv8)
    ensures var s := SubByte(x);
            && Ft0(x as int) == ToWord(Column(GfMul(2, s), s, s, GfMul(3, s)))
            && Ft1(x as int) == ToWord(Column(GfMul(3, s), GfMul(2, s), s, s))
            && Ft2(x as int) == ToWord(Column(s, GfMul(3, s), GfMul(2, s), s))
            && Ft3(x as int) == ToWord(Column(s, s, GfMul(3, s), GfMul(2, s)))
  {
    hide SBox, Fl0, Fl1, Fl2, Fl3, Ft0, Ft1, Ft2, Ft3, Word, XTime, GfMul, Add;
    TablesCorrect(x as int);
    Times2And3(SubByte(x));
  }

  lemma RoundLanes(a: bv8, b: bv8, c: bv8, d: bv8)
    ensures Xor4(Ft0(a as int), Ft1(b as int), Ft2(c as int), Ft3(d as int)) ==
            ToWord(MixColumn(SubWord(Column(a, b, c, d))))
  {
    hide SBox, Ft0, Ft1, Ft2, Ft3, GfMul, ToWord, Xor4, SubByte, Add4;
    RoundTables(a);
    RoundTables(b);
    RoundTables(c);
    RoundTables(d);
    var p, q, r, s := SubByte(a), SubByte(b), SubByte(c), SubByte(d);
    Xor4ToWord(Column(GfMul(2, p), p, p, GfMul(3, p)), Column(GfMul(3, q), GfMul(2, q), q, q),
               Column(r, GfMul(3, r), GfMul(2, r), r), Column(s, s, GfMul(3, s), GfMul(2, s)));
  }

  lemma RoundColumn(a: Column, b: Column, c: Column, d: Column, k: Column)
    ensures FRn(ToWord(a), ToWord(b), ToWord(c), ToWord(d), ToWord(k)) ==
            ToWord(XorWord(MixColumn(SubWord(Column(a.b0, b.b1, c.b2, d.b3))), k))
  {
    hide Ft0, Ft1, Ft2, Ft3, ToWord, GetByte, MixColumn, SubWord, Xor, Xor4, XorWord;
    GetByteOfWord(a);
    GetByteOfWord(b);
    GetByteOfWord(c);
    GetByteOfWord(d);
    RoundLanes(a.b0, b.b1, c.b2, d.b3);
    XorToWord(MixColumn(SubWord(Column(a.b0, b.b1, c.b2, d.b3))), k);
  }

  lemma LastRoundColumn(a: Column, b: Column, c: Column, d: Column, k: Column)
    ensures FRl(ToWord(a), ToWord(b), ToWord(c), ToWord(d), ToWord(k)) ==
            ToWord(XorWord(SubWord(Column(a.b0, b.b1, c.b2, d.b3)), k))
  {
    hide Fl0, Fl1, Fl2, Fl3, ToWord, GetByte, SubWord, Xor, Xor4, XorWord;
    GetByteOfWord(a);
    GetByteOfWord(b);
    GetByteOfWord(c);
    GetByteOfWord(d);
    LastLanes(a.b0, b.b1, c.b2, d.b3);
    XorToWord(SubWord(Column(a.b0, b.b1, c.b2, d.b3)), k);
  }

  // f_nround: the four words of a round, each from the previous words rotated.
  function NRound(b: seq<bv32>, k: seq<bv32>): (w: seq<bv32>)
    requires |b| == |k| == 4
    ensures |w| == 4
  {
    [FRn(b[0], b[1], b[2], b[3], k[0]), FRn(b[1], b[2], b[3], b[0], k[1]),
     FRn(b[2], b[3], b[0], b[1], k[2]), FRn(b[3], b[0], b[1], b[2], k[3])]
  }

  // f_lround
  function LRound(b: seq<bv32>, k: seq<bv32>): (w: seq<bv32>)
    requires |b| == |k| == 4
    ensures |w| == 4
  {
    [FRl(b[0], b[1], b[2], b[3], k[0]), FRl(b[1], b[2], b[3], b[0], k[1]),
     FRl(b[2], b[3], b[0], b[1], k[2]), FRl(b[3], b[0], b[1], b[2], k[3])]
  }

  // A table round is SubBytes, ShiftRows, MixColumns and AddRoundKey.
  lemma NRoundIsRound(s: State, k: State)
    ensures NRound(ToWords(s), ToWords(k)) == ToWords(AddRoundKey(MixColumns(ShiftRows(SubBytes(s))), k))
  {
    hide FRn, ToWord, MixColumn, SubByte, XorWord;
    RoundColumn(s.c0, s.c1, s.c2, s.c3, k.c0);
    RoundColumn(s.c1, s.c2, s.c3, s.c0, k.c1);
    RoundColumn(s.c2, s.c3, s.c0, s.c1, k.c2);
    RoundColumn(s.c3, s.c0, s.c1, s.c2, k.c3);
  }

  // The last table round is the same without MixColumns.
  lemma LRoundIsLastRound(s: State, k: State)
    ensures LRound(ToWords(s), ToWords(k)) == ToWords(AddRoundKey(ShiftRows(SubBytes(s)), k))
  {
    hide FRl, ToWord, SubByte, XorWord;
    LastRoundColumn(s.c0, s.c1, s.c2, s.c3, k.c0);
    LastRoundColumn(s.c1, s.c2, s.c3, s.c0, k.c1);
    LastRoundColumn(s.c2, s.c3, s.c0, s.c1, k.c2);
    LastRoundColumn(s.c3, s.c0, s.c1, s.c2, k.c3);
  }

  lemma TimesInverse(b: bv8)
    ensures var u := XTime(b); var v := XTime(u); var w := XTime(v); var t := Add(w, b);
            GfMul(0x0e, b) == Add(Add(u, v), w) && GfMul(0x0b, b) == Add(u, t) &&
            GfMul(0x0d, b) == Add(v, t) && GfMul(0x09, b) == t
  {}

  lemma AddCommutes(a: bv8, b: bv8)
    ensures Add(a, b) == Add(b, a)
  {}

  lemma AddAssociates(a: bv8, b: bv8, c: bv8)
    ensures Add(Add(a, b), c) == Add(a, Add(b, c))
  {}

  lemma AddRegroup(a: bv8, b: bv8, c: bv8, d: bv8)
    ensures Add(a, Add(Add(b, c), d)) == Add4(a, b, c, d)
  {
    hide Add;
    AddAssociates(a, Add(b, c), d);
    AddAssociates(a, b, c);
  }

  lemma AddRotate(a: bv8, b: bv8, c: bv8, d: bv8)
    ensures Add4(a, b, c, d) == Add4(d, a, b, c)
  {
    hide Add;
    AddCommutes(Add(Add(a, b), c), d);
    AddRegroup(d, a, b, c);
  }

  lemma Rotations(a: bv8, b: bv8, c: bv8, d: bv8)
    ensures Add4(a, b, c, d) == Add4(d, a, b, c) == Add4(c, d, a, b) == Add4(b, c, d, a)
  {
    hide Add, Add4;
    AddRotate(a, b, c, d);
    AddRotate(d, a, b, c);
    AddRotate(c, d, a, b);
  }

  lemma TopBits(c: Column)
    ensures (ToWord(c) & 0x80808080) >> 7 == Word(c.b0 >> 7, c.b1 >> 7, c.b2 >> 7, c.b3 >> 7)
  {}

  lemma LowBits(c: Column)
    ensures (ToWord(c) & 0x7f7f7f7f) << 1 == Word(c.b0 << 1, c.b1 << 1, c.b2 << 1, c.b3 << 1)
  {}

  lemma TimesReduction(a: bv8, b: bv8, c: bv8, d: bv8)
    requires a <= 1 && b <= 1 && c <= 1 && d <= 1
    ensures Word(a, b, c, d) * 0x1b == Word(a * 0x1b, b * 0x1b, c * 0x1b, d * 0x1b)
  {}

  lemma XTimeByTopBit(b: bv8)
    ensures b >> 7 <= 1 && XTime(b) == Add(b << 1, (b >> 7) * 0x1b)
  {}

  // star_x multiplies the four bytes of a word by {02}.
  lemma StarXIsXTime(c: Column)
    ensures StarX(ToWord(c)) == ToWord(Column(XTime(c.b0), XTime(c.b1), XTime(c.b2), XTime(c.b3)))
  {
    hide Word, XTime, Xor, Add;
    LowBits(c);
    TopBits(c);
    XTimeByTopBit(c.b0);
    XTimeByTopBit(c.b1);
    XTimeByTopBit(c.b2);
    XTimeByTopBit(c.b3);
    TimesReduction(c.b0 >> 7, c.b1 >> 7, c.b2 >> 7, c.b3 >> 7);
    XorToWord(Column(c.b0 << 1, c.b1 << 1, c.b2 << 1, c.b3 << 1),
              Column((c.b0 >> 7) * 0x1b, (c.b1 >> 7) * 0x1b, (c.b2 >> 7) * 0x1b, (c.b3 >> 7) * 0x1b));
  }

  function XTimes(c: Column): Column {
    Column(XTime(c.b0), XTime(c.b1), XTime(c.b2), XTime(c.b3))
  }

  // imix_col is the InvMixColumns transformation of one column.
  lemma IMixColIsInvMixColumn(c: Column)
    ensures IMixCol(ToWord(c)) == ToWord(InvMixColumn(c))
  {
    hide ToWord, StarX, Xor, XTime, GfMul, Add, Add4, Ror;
    var u := XTimes(c);
    var v := XTimes(u);
    var w := XTimes(v);
    var t := XorWord(w, c);
    var ut, vt := XorWord(u, t), XorWord(v, t);
    StarXIsXTime(c);
    StarXIsXTime(u);
    StarXIsXTime(v);
    XorToWord(w, c);
    XorToWord(u, v);
    XorToWord(XorWord(u, v), w);
    XorToWord(u, t);
    XorToWord(v, t);
    RotToWord(ut);
    Rot2ToWord(vt);
    Rot3ToWord(t);
    var r8, r16, r24 := RotWord(ut), RotWord(RotWord(vt)), RotWord(RotWord(RotWord(t)));
    XorToWord(r8, r16);
    XorToWord(XorWord(r8, r16), r24);
    XorToWord(XorWord(XorWord(u, v), w), XorWord(XorWord(r8, r16), r24));
    TimesInverse(c.b0);
    TimesInverse(c.b1);
    TimesInverse(c.b2);
    TimesInverse(c.b3);
    AddRegroup(GfMul(0x0e, c.b0), GfMul(0x0b, c.b1), GfMul(0x0d, c.b2), GfMul(0x09, c.b3));
    AddRegroup(GfMul(0x0e, c.b1), GfMul(0x0b, c.b2), GfMul(0x0d, c.b3), GfMul(0x09, c.b0));
    AddRegroup(GfMul(0x0e, c.b2), GfMul(0x0b, c.b3), GfMul(0x0d, c.b0), GfMul(0x09, c.b1));
    AddRegroup(GfMul(0x0e, c.b3), GfMul(0x0b, c.b0), GfMul(0x0d, c.b1), GfMul(0x09, c.b2));
    Rotations(GfMul(0x0e, c.b1), GfMul(0x0b, c.b2), GfMul(0x0d, c.b3), GfMul(0x09, c.b0));
    Rotations(GfMul(0x0e, c.b2), GfMul(0x0b, c.b3), GfMul(0x0d, c.b0), GfMul(0x09, c.b1));
    Rotations(GfMul(0x0e, c.b3), GfMul(0x0b, c.b0), GfMul(0x0d, c.b1), GfMul(0x09, c.b2));
  }
}
