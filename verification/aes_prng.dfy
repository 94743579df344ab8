// AES_ExpandKey, AES_Encrypt and the counter-mode generator built on them, proved
// against the key schedule and the cipher of FIPS 197.
module AesPrng {
  import opened Fips197
  import opened AesTables
  import opened AesWords

  const UINT32: nat := 0x1_0000_0000

  // ---------- Bytes, columns and words ----------

  function ColumnAt(bytes: seq<bv8>, i: nat): Column
    requires 4 * i + 4 <= |bytes|
  {
    Column(bytes[4 * i], bytes[4 * i + 1], bytes[4 * i + 2], bytes[4 * i + 3])
  }

  function KeyOf(bytes: seq<bv8>): Key
    requires |bytes| == 16 || |bytes| == 24 || |bytes| == 32
  {
    seq(|bytes| / 4, i requires 0 <= i < |bytes| / 4 => ColumnAt(bytes, i))
  }

  function StateOf(bytes: seq<bv8>): State
    requires |bytes| == 16
  {
    State(ColumnAt(bytes, 0), ColumnAt(bytes, 1), ColumnAt(bytes, 2), ColumnAt(bytes, 3))
  }

  function ColumnBytes(c: Column): (bytes: seq<bv8>)
    ensures |bytes| == 4
  {
    [c.b0, c.b1, c.b2, c.b3]
  }

  function StateBytes(s: State): (bytes: seq<bv8>)
    ensures |bytes| == 16
  {
    ColumnBytes(s.c0) + ColumnBytes(s.c1) + ColumnBytes(s.c2) + ColumnBytes(s.c3)
  }

  // le32_to_cpu of the i-th word of a byte buffer, and cpu_to_le32 of a word.
  function LoadWord(bytes: seq<bv8>, i: nat): bv32
    requires 4 * i + 4 <= |bytes|
  {
    ToWord(ColumnAt(bytes, i))
  }

  function StoreWord(w: bv32): seq<bv8> {
    [GetByte(w, 0), GetByte(w, 1), GetByte(w, 2), GetByte(w, 3)]
  }

  // rco_tab
  function RcoTab(i: nat): bv32
    requires i < 10
  {
    match i
    case 0 => 1 case 1 => 2 case 2 => 4 case 3 => 8 case 4 => 16
    case 5 => 32 case 6 => 64 case 7 => 128 case 8 => 27 case _ => 54
  }

  lemma RcoTabIsRcon(i: nat)
    requires i < 10
    ensures RcoTab(i) == ToWord(Column(Rcon(i + 1), 0, 0, 0))
  {
    assert Rcon(1) == 1 && Rcon(2) == 2 && Rcon(3) == 4 && Rcon(4) == 8 && Rcon(5) == 16;
    assert Rcon(6) == 32 && Rcon(7) == 64 && Rcon(8) == 128 && Rcon(9) == 27 && Rcon(10) == 54;
  }

  // ---------- The recurrence of the key schedule, in words ----------

  lemma XorWordCommutes(a: Column, b: Column)
    ensures XorWord(a, b) == XorWord(b, a)
  {
    hide Add;
    AddCommutes(a.b0, b.b0);
    AddCommutes(a.b1, b.b1);
    AddCommutes(a.b2, b.b2);
    AddCommutes(a.b3, b.b3);
  }

  lemma DivMod(n: nat, i: nat, r: nat)
    requires (n == 4 || n == 6 || n == 8) && r < n
    ensures (n * i + r) / n == i && (n * i + r) % n == r
  {
    if n == 4 {
    } else if n == 6 {
    } else {
    }
  }

  // The first word of each group of Nk goes through RotWord, SubWord and the round constant.
  lemma FirstWord(key: Key, nk: nat, i: nat)
    requires nk == |key| && 1 <= i <= 10
    ensures Xor(Xor(LsBox(Ror(ToWord(KeyWord(key, nk * i - 1)), 8)), RcoTab(i - 1)),
                ToWord(KeyWord(key, nk * i - nk))) == ToWord(KeyWord(key, nk * i))
  {
    hide ToWord, Xor, XorWord, LsBox, Ror, SubWord, RotWord, RcoTab, Rcon;
    var j := nk * i;
    DivMod(nk, i, 0);
    assert j >= nk;
    var temp := KeyWord(key, j - 1);
    var sub := SubWord(RotWord(temp));
    var rcon := Column(Rcon(i), 0, 0, 0);
    RotToWord(temp);
    LsBoxIsSubWord(RotWord(temp));
    RcoTabIsRcon(i - 1);
    XorToWord(sub, rcon);
    XorToWord(XorWord(sub, rcon), KeyWord(key, j - nk));
    XorWordCommutes(XorWord(sub, rcon), KeyWord(key, j - nk));
  }

  // With 256-bit keys the fifth word of each group goes through SubWord.
  lemma MiddleWord(key: Key, i: nat)
    requires |key| == 8 && 1 <= i
    ensures Xor(ToWord(KeyWord(key, 8 * i - 4)), LsBox(ToWord(KeyWord(key, 8 * i + 3)))) ==
            ToWord(KeyWord(key, 8 * i + 4))
  {
    hide ToWord, Xor, XorWord, LsBox, SubWord;
    var j := 8 * i + 4;
    LsBoxIsSubWord(KeyWord(key, j - 1));
    XorToWord(KeyWord(key, j - 8), SubWord(KeyWord(key, j - 1)));
  }

  // Every other word is the previous one xor the one Nk places back.
  lemma NextWord(key: Key, nk: nat, i: nat, r: nat)
    requires nk == |key| && 1 <= i && 0 < r < nk && !(nk == 8 && r == 4)
    ensures nk * i >= nk
    ensures Xor(ToWord(KeyWord(key, nk * i + r - 1)), ToWord(KeyWord(key, nk * i + r - nk))) ==
            ToWord(KeyWord(key, nk * i + r))
  {
    hide ToWord, Xor, XorWord;
    var j := nk * i + r;
    DivMod(nk, i, r);
    assert nk * i >= nk;
    XorToWord(KeyWord(key, j - 1), KeyWord(key, j - nk));
    XorWordCommutes(KeyWord(key, j - 1), KeyWord(key, j - nk));
  }

  // Word m of the decryption schedule of the equivalent inverse cipher (section 5.3.5): the
  // round keys in reverse order, all but the outer two through InvMixColumns.
  function DecWord(key: Key, m: nat): Column
    requires m < 4 * NumRounds(key) + 4
  {
    var round := NumRounds(key) - m / 4;
    var w := KeyWord(key, 4 * round + m % 4);
    if round == 0 || round == NumRounds(key) then w else InvMixColumn(w)
  }

  // The outer two round keys are copied unchanged.
  lemma Ends(key: Key, c: nat)
    requires c < 4
    ensures DecWord(key, c) == KeyWord(key, 4 * NumRounds(key) + c)
    ensures DecWord(key, 4 * NumRounds(key) + c) == KeyWord(key, c)
  {
    hide KeyWord;
  }

  class AesContext {
    const keyEnc: array<bv32>
    const keyDec: array<bv32>
    var keyLength: nat

    constructor ()
      ensures keyEnc.Length == 60 && keyDec.Length == 60 && keyLength == 0
      ensures fresh(keyEnc) && fresh(keyDec) && keyEnc != keyDec
    {
      keyEnc := new bv32[60](_ => 0);
      keyDec := new bv32[60](_ => 0);
      keyLength := 0;
    }

    // The first n words of key_enc are those of the FIPS 197 schedule.
    ghost predicate Expanded(key: Key, n: nat)
      reads keyEnc
    {
      n <= keyEnc.Length && forall j | 0 <= j < n :: keyEnc[j] == ToWord(KeyWord(key, j))
    }

    // key_dec is the schedule of the equivalent inverse cipher.
    ghost predicate DecExpanded(key: Key)
      reads keyDec
    {
      keyDec.Length == 60 && forall m | 0 <= m < 4 * NumRounds(key) + 4 :: keyDec[m] == ToWord(DecWord(key, m))
    }

    // The context holds the full encryption schedule of a key.
    ghost predicate Holds(key: Key)
      reads this, keyEnc
    {
      keyEnc.Length == 60 && keyLength == 4 * |key| && Expanded(key, 4 * NumRounds(key) + 4)
    }

    lemma At(j: nat, n: nat, key: Key)
      requires Expanded(key, n) && j < n
      ensures j < keyEnc.Length && keyEnc[j] == ToWord(KeyWord(key, j))
    {
      hide ToWord, KeyWord;
    }

    // Stores the next word of the schedule.
    method Store(j: nat, t: bv32, ghost key: Key)
      requires j < keyEnc.Length && Expanded(key, j) && t == ToWord(KeyWord(key, j))
      modifies keyEnc
      ensures Expanded(key, j + 1)
    {
      hide ToWord, KeyWord;
      keyEnc[j] := t;
    }

    // One of the lines t ^= key_enc[from]; key_enc[from + nk] = t.
    method XorStore(from: nat, t0: bv32, nk: nat, ghost key: Key, ghost i: nat, ghost r: nat) returns (t: bv32)
      requires nk == |key| && 1 <= i && 0 < r < nk && !(nk == 8 && r == 4)
      requires from == nk * i + r - nk && from + nk < keyEnc.Length
      requires Expanded(key, from + nk) && t0 == ToWord(KeyWord(key, from + nk - 1))
      modifies keyEnc
      ensures Expanded(key, from + nk + 1) && t == ToWord(KeyWord(key, from + nk))
    {
      hide ToWord, Xor, KeyWord, Expanded;
      At(from, from + nk, key);
      t := Xor(t0, keyEnc[from]);
      NextWord(key, nk, i, r);
      Store(from + nk, t, key);
    }

    // loop4, one group of the 128-bit schedule.
    method Loop4(i: nat, t0: bv32, ghost key: Key) returns (t: bv32)
      requires i < 10 && |key| == 4 && keyEnc.Length == 60
      requires Expanded(key, 4 * i + 4) && t0 == ToWord(KeyWord(key, 4 * i + 3))
      modifies keyEnc
      ensures Expanded(key, 4 * i + 8) && t == ToWord(KeyWord(key, 4 * i + 7))
    {
      hide ToWord, Xor, LsBox, Ror, RcoTab, KeyWord, Expanded;
      t := Ror(t0, 8);
      t := Xor(LsBox(t), RcoTab(i));
      At(4 * i, 4 * i + 4, key);
      t := Xor(t, keyEnc[4 * i]);
      FirstWord(key, 4, i + 1);
      Store(4 * i + 4, t, key);
      t := XorStore(4 * i + 1, t, 4, key, i + 1, 1);
      t := XorStore(4 * i + 2, t, 4, key, i + 1, 2);
      t := XorStore(4 * i + 3, t, 4, key, i + 1, 3);
    }

    // loop6, one group of the 192-bit schedule.
    method Loop6(i: nat, t0: bv32, ghost key: Key) returns (t: bv32)
      requires i < 8 && |key| == 6 && keyEnc.Length == 60
      requires Expanded(key, 6 * i + 6) && t0 == ToWord(KeyWord(key, 6 * i + 5))
      modifies keyEnc
      ensures Expanded(key, 6 * i + 12) && t == ToWord(KeyWord(key, 6 * i + 11))
    {
      hide ToWord, Xor, LsBox, Ror, RcoTab, KeyWord, Expanded;
      t := Ror(t0, 8);
      t := Xor(LsBox(t), RcoTab(i));
      At(6 * i, 6 * i + 6, key);
      t := Xor(t, keyEnc[6 * i]);
      FirstWord(key, 6, i + 1);
      Store(6 * i + 6, t, key);
      t := XorStore(6 * i + 1, t, 6, key, i + 1, 1);
      t := XorStore(6 * i + 2, t, 6, key, i + 1, 2);
      t := XorStore(6 * i + 3, t, 6, key, i + 1, 3);
      t := XorStore(6 * i + 4, t, 6, key, i + 1, 4);
      t := XorStore(6 * i + 5, t, 6, key, i + 1, 5);
    }

    // loop8tophalf, the first four words of a group of the 256-bit schedule.
    method Loop8TopHalf(i: nat, t0: bv32, ghost key: Key) returns (t: bv32)
      requires i < 7 && |key| == 8 && keyEnc.Length == 60
      requires Expanded(key, 8 * i + 8) && t0 == ToWord(KeyWord(key, 8 * i + 7))
      modifies keyEnc
      ensures Expanded(key, 8 * i + 12) && t == ToWord(KeyWord(key, 8 * i + 11))
    {
      hide ToWord, Xor, LsBox, Ror, RcoTab, KeyWord, Expanded;
      t := Ror(t0, 8);
      t := Xor(LsBox(t), RcoTab(i));
      At(8 * i, 8 * i + 8, key);
      t := Xor(t, keyEnc[8 * i]);
      FirstWord(key, 8, i + 1);
      Store(8 * i + 8, t, key);
      t := XorStore(8 * i + 1, t, 8, key, i + 1, 1);
      t := XorStore(8 * i + 2, t, 8, key, i + 1, 2);
      t := XorStore(8 * i + 3, t, 8, key, i + 1, 3);
    }

    // loop8, one group of the 256-bit schedule.
    method Loop8(i: nat, t0: bv32, ghost key: Key) returns (t: bv32)
      requires i < 6 && |key| == 8 && keyEnc.Length == 60
      requires Expanded(key, 8 * i + 8) && t0 == ToWord(KeyWord(key, 8 * i + 7))
      modifies keyEnc
      ensures Expanded(key, 8 * i + 16) && t == ToWord(KeyWord(key, 8 * i + 15))
    {
      hide ToWord, Xor, LsBox, Ror, RcoTab, KeyWord, Expanded;
      t := Loop8TopHalf(i, t0, key);
      At(8 * i + 4, 8 * i + 12, key);
      t := Xor(keyEnc[8 * i + 4], LsBox(t));
      MiddleWord(key, i + 1);
      Store(8 * i + 12, t, key);
      t := XorStore(8 * i + 5, t, 8, key, i + 1, 5);
      t := XorStore(8 * i + 6, t, 8, key, i + 1, 6);
      t := XorStore(8 * i + 7, t, 8, key, i + 1, 7);
    }

    // The key words themselves, copied to the front of key_enc.
    method LoadKey(inKey: seq<bv8>, n: nat)
      requires keyEnc.Length == 60 && (|inKey| == 16 || |inKey| == 24 || |inKey| == 32)
      requires 4 * n < |inKey| && Expanded(KeyOf(inKey), n)
      modifies keyEnc
      ensures Expanded(KeyOf(inKey), n + 1)
    {
      hide ToWord, Expanded;
      KeyWordStart(KeyOf(inKey), n);
      Store(n, LoadWord(inKey, n), KeyOf(inKey));
    }

    // AES_ExpandKey: both schedules for the three legal key lengths, -1 and no change for
    // any other.
    method ExpandKey(inKey: seq<bv8>, keyLen: nat) returns (ret: int)
      requires keyEnc.Length == 60 && keyDec.Length == 60 && keyEnc != keyDec
      requires keyLen == 16 || keyLen == 24 || keyLen == 32 ==> |inKey| == keyLen
      modifies this, keyEnc, keyDec
      ensures ret == 0 <==> keyLen == 16 || keyLen == 24 || keyLen == 32
      ensures ret != 0 ==> ret == -1 && unchanged(this) && unchanged(keyEnc) && unchanged(keyDec)
      ensures ret == 0 ==> Holds(KeyOf(inKey)) && DecExpanded(KeyOf(inKey))
    {
      hide ToWord, KeyWord, Expanded, DecExpanded;
      if keyLen != 16 && keyLen != 24 && keyLen != 32 {
        return -1;
      }
      ghost var key := KeyOf(inKey);
      keyLength := keyLen;
      Nothing(key);
      LoadKey(inKey, 0);
      LoadKey(inKey, 1);
      LoadKey(inKey, 2);
      LoadKey(inKey, 3);
      var t;
      if keyLen == 16 {
        At(3, 4, key);
        t := keyEnc[3];
        for i := 0 to 10
          invariant keyLength == keyLen && Expanded(key, 4 * i + 4) && t == ToWord(KeyWord(key, 4 * i + 3))
        {
          t := Loop4(i, t, key);
        }
      } else if keyLen == 24 {
        LoadKey(inKey, 4);
        LoadKey(inKey, 5);
        At(5, 6, key);
        t := keyEnc[5];
        for i := 0 to 8
          invariant keyLength == keyLen && Expanded(key, 6 * i + 6) && t == ToWord(KeyWord(key, 6 * i + 5))
        {
          t := Loop6(i, t, key);
        }
        Fewer(key, 54, 52);
      } else {
        LoadKey(inKey, 4);
        LoadKey(inKey, 5);
        LoadKey(inKey, 6);
        LoadKey(inKey, 7);
        At(7, 8, key);
        t := keyEnc[7];
        for i := 0 to 6
          invariant keyLength == keyLen && Expanded(key, 8 * i + 8) && t == ToWord(KeyWord(key, 8 * i + 7))
        {
          t := Loop8(i, t, key);
        }
        t := Loop8TopHalf(6, t, key);
      }
      ExpandDecryption(keyLen, key);
      ret := 0;
    }

    lemma Nothing(key: Key)
      ensures Expanded(key, 0)
    {}

    lemma Fewer(key: Key, n: nat, m: nat)
      requires Expanded(key, n) && m <= n
      ensures Expanded(key, m)
    {
      hide ToWord, KeyWord;
    }

    // The second half of AES_ExpandKey, which fills key_dec.
    method ExpandDecryption(keyLen: nat, ghost key: Key)
      requires keyEnc.Length == 60 && keyDec.Length == 60 && keyEnc != keyDec
      requires keyLen == 4 * |key| && Expanded(key, keyLen + 28)
      modifies keyDec
      ensures DecExpanded(key) && Expanded(key, keyLen + 28)
    {
      hide ToWord, DecWord, Mirror;
      MirrorEnds(keyLen, key);
      MirrorLoop(keyLen, key);
      forall m | 4 <= m < keyLen + 24
        ensures keyDec[m] == ToWord(DecWord(key, m))
      {
        MirrorTwice(keyLen, m);
      }
    }

    // The first and last round keys, copied before and after the forward expansion.
    method MirrorEnds(keyLen: nat, ghost key: Key)
      requires keyEnc.Length == 60 && keyDec.Length == 60 && keyEnc != keyDec
      requires keyLen == 4 * |key| && Expanded(key, keyLen + 28)
      modifies keyDec
      ensures forall m | 0 <= m < 4 || keyLen + 24 <= m < keyLen + 28 :: keyDec[m] == ToWord(DecWord(key, m))
    {
      hide ToWord, KeyWord, DecWord;
      Copy4(keyLen + 24, 0);
      Copy4(0, keyLen + 24);
      Ends(key, 0);
      Ends(key, 1);
      Ends(key, 2);
      Ends(key, 3);
    }

    // Four words of key_enc from `src` on, copied to key_dec from `dst` on.
    method Copy4(dst: nat, src: nat)
      requires keyDec.Length == keyEnc.Length == 60 && keyEnc != keyDec && dst + 4 <= 60 && src + 4 <= 60
      modifies keyDec
      ensures forall m | 0 <= m < 60 ::
          keyDec[m] == if dst <= m < dst + 4 then keyEnc[src + m - dst] else old(keyDec[m])
    {
      keyDec[dst] := keyEnc[src];
      keyDec[dst + 1] := keyEnc[src + 1];
      keyDec[dst + 2] := keyEnc[src + 2];
      keyDec[dst + 3] := keyEnc[src + 3];
    }

    // The imix_col loop of AES_ExpandKey.
    method MirrorLoop(keyLen: nat, ghost key: Key)
      requires keyEnc.Length == 60 && keyDec.Length == 60 && keyEnc != keyDec
      requires keyLen == 4 * |key| && Expanded(key, keyLen + 28)
      modifies keyDec
      ensures forall m | 0 <= m < 4 || keyLen + 24 <= m < 60 :: keyDec[m] == old(keyDec[m])
      ensures forall n | 4 <= n < keyLen + 24 :: keyDec[Mirror(keyLen, n)] == ToWord(DecWord(key, Mirror(keyLen, n)))
    {
      hide ToWord, KeyWord, InvMixColumn, IMixCol;
      for i := 4 to keyLen + 24
        invariant forall m | 0 <= m < 4 || keyLen + 24 <= m < 60 :: keyDec[m] == old(keyDec[m])
        invariant forall n | 4 <= n < i :: keyDec[Mirror(keyLen, n)] == ToWord(DecWord(key, Mirror(keyLen, n)))
      {
        var j := keyLen + 24 - (i - i % 4) + i % 4;
        keyDec[j] := IMixCol(keyEnc[i]);
        IMixColIsInvMixColumn(KeyWord(key, i));
        assert j / 4 == NumRounds(key) - i / 4 && j % 4 == i % 4;
      }
    }

    // f_nround: table round r, with the round key at kp.
    method FNRound(bi: seq<bv32>, kp: nat, ghost key: Key, ghost input: State, ghost r: nat) returns (bo: seq<bv32>)
      requires 1 <= r < NumRounds(key) && kp == 4 * r && Holds(key)
      requires bi == ToWords(AfterRounds(key, input, r - 1))
      ensures bo == ToWords(AfterRounds(key, input, r))
    {
      hide ToWord, KeyWord, NRound, SubBytes, ShiftRows, MixColumns, AddRoundKey;
      bo := NRound(bi, keyEnc[kp..kp + 4]);
      assert keyEnc[kp..kp + 4] == ToWords(RoundKey(key, r));
      NRoundIsRound(AfterRounds(key, input, r - 1), RoundKey(key, r));
    }

    // AES_Encrypt: the FIPS 197 cipher under the key the context holds.
    method Encrypt(input: seq<bv8>, ghost key: Key) returns (output: seq<bv8>)
      requires |input| == 16 && Holds(key)
      ensures output == StateBytes(Cipher(key, StateOf(input)))
    {
      hide ToWord, KeyWord, AfterRounds, Expanded, ToWords, StateOf, Cipher, StateBytes, StoreWord;
      ghost var st := StateOf(input);
      var b0 := FirstAddRoundKey(input, key);
      var b1;
      var kp := 4;
      ghost var r := 1;
      if keyLength > 24 {
        b1 := FNRound(b0, kp, key, st, r);
        b0 := FNRound(b1, kp + 4, key, st, r + 1);
        kp, r := kp + 8, r + 2;
      }
      if keyLength > 16 {
        b1 := FNRound(b0, kp, key, st, r);
        b0 := FNRound(b1, kp + 4, key, st, r + 1);
        kp, r := kp + 8, r + 2;
      }
      b1 := FNRound(b0, kp, key, st, r);
      b0 := FNRound(b1, kp + 4, key, st, r + 1);
      b1 := FNRound(b0, kp + 8, key, st, r + 2);
      b0 := FNRound(b1, kp + 12, key, st, r + 3);
      b1 := FNRound(b0, kp + 16, key, st, r + 4);
      b0 := FNRound(b1, kp + 20, key, st, r + 5);
      b1 := FNRound(b0, kp + 24, key, st, r + 6);
      b0 := FNRound(b1, kp + 28, key, st, r + 7);
      b1 := FNRound(b0, kp + 32, key, st, r + 8);
      b0 := FLRound(b1, kp + 36, key, st);
      output := StoreWord(b0[0]) + StoreWord(b0[1]) + StoreWord(b0[2]) + StoreWord(b0[3]);
      StoreOfState(Cipher(key, st));
    }

    // The exclusive or with the first round key at the start of AES_Encrypt.
    method FirstAddRoundKey(input: seq<bv8>, ghost key: Key) returns (b0: seq<bv32>)
      requires |input| == 16 && Holds(key)
      ensures b0 == ToWords(AfterRounds(key, StateOf(input), 0))
    {
      hide ToWord, KeyWord, Xor, XorWord;
      b0 := [Xor(LoadWord(input, 0), keyEnc[0]), Xor(LoadWord(input, 1), keyEnc[1]),
             Xor(LoadWord(input, 2), keyEnc[2]), Xor(LoadWord(input, 3), keyEnc[3])];
      XorToWord(ColumnAt(input, 0), KeyWord(key, 0));
      XorToWord(ColumnAt(input, 1), KeyWord(key, 1));
      XorToWord(ColumnAt(input, 2), KeyWord(key, 2));
      XorToWord(ColumnAt(input, 3), KeyWord(key, 3));
    }

    // f_lround: the last table round.
    method FLRound(bi: seq<bv32>, kp: nat, ghost key: Key, ghost input: State) returns (bo: seq<bv32>)
      requires kp == 4 * NumRounds(key) && Holds(key)
      requires bi == ToWords(AfterRounds(key, input, NumRounds(key) - 1))
      ensures bo == ToWords(Cipher(key, input))
    {
      hide ToWord, KeyWord, LRound, SubBytes, ShiftRows, AddRoundKey, AfterRounds;
      bo := LRound(bi, keyEnc[kp..kp + 4]);
      assert keyEnc[kp..kp + 4] == ToWords(RoundKey(key, NumRounds(key)));
      LRoundIsLastRound(AfterRounds(key, input, NumRounds(key) - 1), RoundKey(key, NumRounds(key)));
    }
  }

  // The place in key_dec of word i of key_enc.
  function Mirror(keyLen: nat, i: nat): (j: nat)
    requires keyLen % 4 == 0 && 4 <= i < keyLen + 24
    ensures 4 <= j < keyLen + 24
  {
    keyLen + 24 - (i - i % 4) + i % 4
  }

  lemma MirrorTwice(keyLen: nat, i: nat)
    requires keyLen % 4 == 0 && 4 <= i < keyLen + 24
    ensures Mirror(keyLen, Mirror(keyLen, i)) == i
  {}

  lemma StoreOfToWord(c: Column)
    ensures StoreWord(ToWord(c)) == ColumnBytes(c)
  {
    hide ToWord, GetByte;
    GetByteOfWord(c);
  }

  lemma StoreOfState(s: State)
    ensures var b := ToWords(s);
            StoreWord(b[0]) + StoreWord(b[1]) + StoreWord(b[2]) + StoreWord(b[3]) == StateBytes(s)
  {
    hide ToWord, StoreWord;
    StoreOfToWord(s.c0);
    StoreOfToWord(s.c1);
    StoreOfToWord(s.c2);
    StoreOfToWord(s.c3);
  }

  lemma KeyWordStart(key: Key, i: nat)
    requires i < |key|
    ensures KeyWord(key, i) == key[i]
  {}

  // ---------- The counter-mode generator ----------

  // The four little-endian bytes that PRNG_Generate stores for a counter.
  function CounterColumn(c: nat): Column {
    Column((c % 256) as bv8, (c / 256 % 256) as bv8, (c / 65536 % 256) as bv8, (c / 16777216 % 256) as bv8)
  }

  // The cipher input made of the four counters that follow c, modulo 2^32.
  function CounterBlock(c: nat): State {
    State(CounterColumn(c % UINT32), CounterColumn((c + 1) % UINT32),
          CounterColumn((c + 2) % UINT32), CounterColumn((c + 3) % UINT32))
  }

  // Word n of the stream a key generates: word n mod 4 of the encryption of the counters
  // 4 * (n / 4) to 4 * (n / 4) + 3.
  function StreamWord(key: Key, n: nat): bv32 {
    var block := Cipher(key, CounterBlock(4 * (n / 4)));
    match n % 4
    case 0 => ToWord(block.c0)
    case 1 => ToWord(block.c1)
    case 2 => ToWord(block.c2)
    case _ => ToWord(block.c3)
  }

  // A buffer of i columns followed by one more.
  lemma AppendColumn(bytes: seq<bv8>, c: Column, i: nat)
    requires |bytes| == 4 * i
    ensures ColumnAt(bytes + ColumnBytes(c), i) == c
    ensures forall j | 0 <= j < i :: ColumnAt(bytes + ColumnBytes(c), j) == ColumnAt(bytes, j)
  {}

  lemma ColumnsOfState(s: State)
    ensures ColumnAt(StateBytes(s), 0) == s.c0 && ColumnAt(StateBytes(s), 1) == s.c1
    ensures ColumnAt(StateBytes(s), 2) == s.c2 && ColumnAt(StateBytes(s), 3) == s.c3
  {}

  lemma StreamWords(key: Key, blocks: nat)
    ensures var block := Cipher(key, CounterBlock(4 * blocks));
            && StreamWord(key, 4 * blocks) == ToWord(block.c0) && StreamWord(key, 4 * blocks + 1) == ToWord(block.c1)
            && StreamWord(key, 4 * blocks + 2) == ToWord(block.c2)
                && StreamWord(key, 4 * blocks + 3) == ToWord(block.c3)
  {
    hide Cipher, CounterBlock, ToWord;
  }

  class Prng {
    var enabled: bool
    const context: AesContext
    var inputCounter: nat
    var values: seq<bv32>
    var valueIndex: nat
    ghost var key: Key      // the key of the last PRNG_Start
    ghost var blocks: nat   // how many blocks were encrypted since then

    ghost predicate Valid()
      reads this, context, context.keyEnc
    {
      && context.keyEnc.Length == 60 && context.keyDec.Length == 60 && context.keyEnc != context.keyDec
      && |values| == 4
      && (enabled ==>
            && |key| == 4 && context.Holds(key)
            && inputCounter == 4 * blocks % UINT32
            && valueIndex <= 4 && (blocks == 0 ==> valueIndex == 4)
            && forall i | valueIndex <= i < 4 :: values[i] == StreamWord(key, 4 * blocks - 4 + i))
    }

    // How many words were read since the last PRNG_Start.
    ghost function Drawn(): int
      reads this
    {
      4 * blocks - 4 + valueIndex
    }

    constructor ()
      ensures Valid() && !enabled && fresh(context) && fresh(context.keyEnc) && fresh(context.keyDec)
    {
      enabled := false;
      context := new AesContext();
      inputCounter := 0;
      values := [0, 0, 0, 0];
      valueIndex := 0;
    }

    // PRNG_Start: a new stream under a 128-bit key.
    method Start(seed: seq<bv8>)
      requires Valid() && |seed| == 16
      modifies this, context, context.keyEnc, context.keyDec
      ensures Valid() && enabled && key == KeyOf(seed) && Drawn() == 0
    {
      hide AesContext.Holds, AesContext.DecExpanded;
      var _ := context.ExpandKey(seed, 16);
      key := KeyOf(seed);
      valueIndex := 4;
      inputCounter := 0;
      enabled := true;
      blocks := 0;
    }

    // PRNG_Stop
    method Stop()
      requires Valid()
      modifies this`enabled
      ensures Valid() && !enabled
    {
      enabled := false;
    }

    // The loop of PRNG_Generate that fills the cipher input with four counters.
    lemma NextCounter(x: nat)
      ensures (x % UINT32 + 1) % UINT32 == (x + 1) % UINT32
    {}

    method CounterInput() returns (input: seq<bv8>)
      requires inputCounter == 4 * blocks % UINT32
      modifies this`inputCounter
      ensures |input| == 16 && StateOf(input) == CounterBlock(4 * blocks)
      ensures inputCounter == 4 * (blocks + 1) % UINT32
    {
      hide ColumnAt, ColumnBytes, CounterColumn;
      input := [];
      for i := 0 to 4
        invariant |input| == 4 * i && inputCounter == (4 * blocks + i) % UINT32
        invariant forall j | 0 <= j < i :: ColumnAt(input, j) == CounterColumn((4 * blocks + j) % UINT32)
      {
        AppendColumn(input, CounterColumn(inputCounter), i);
        NextCounter(4 * blocks + i);
        input := input + ColumnBytes(CounterColumn(inputCounter));
        inputCounter := (inputCounter + 1) % UINT32;
      }
    }

    // PRNG_Generate: encrypts the next four counters.
    method Generate()
      requires Valid() && enabled && valueIndex == 4
      modifies this`inputCounter, this`values, this`valueIndex, this`blocks
      ensures Valid() && Drawn() == old(Drawn()) && valueIndex == 0
    {
      hide ToWord, ColumnAt, Cipher, AesContext.Holds, StateBytes, StateOf, CounterBlock;
      var input := CounterInput();
      var output := context.Encrypt(input, key);
      values := [LoadWord(output, 0), LoadWord(output, 1), LoadWord(output, 2), LoadWord(output, 3)];
      ColumnsOfState(Cipher(key, CounterBlock(4 * blocks)));
      StreamWords(key, blocks);
      valueIndex := 0;
      blocks := blocks + 1;
    }

    // PRNG_Random: the next word of the stream, or 0 when the generator is stopped.
    method Random() returns (result: bv32)
      requires Valid()
      modifies this
      ensures Valid() && enabled == old(enabled) && key == old(key)
      ensures enabled ==> old(Drawn()) >= 0 && result == StreamWord(key, old(Drawn())) && Drawn() == old(Drawn()) + 1
      ensures !enabled ==> result == 0 && unchanged(this)
    {
      hide StreamWord, AesContext.Holds;
      if !enabled {
        return 0;
      }
      if valueIndex >= 4 {
        Generate();
      }
      result := values[valueIndex];
      valueIndex := valueIndex + 1;
    }
  }
}
