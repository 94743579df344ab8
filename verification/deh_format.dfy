// deh_str.c: the check that is meant to keep a replaced printf format from asking for
// arguments that the call does not pass, and how far it does.
module DehFormat {
  import opened DehStr
  import opened PrintfFormat

  datatype ArgType = Invalid | Integer | Float | Character | Text | Pointer | SavePos

  // FormatArgumentType
  function FormatArgumentType(c: Char): ArgType {
    match c
    case 'd' | 'i' | 'o' | 'u' | 'x' | 'X' => Integer
    case 'e' | 'E' | 'f' | 'F' | 'g' | 'G' | 'a' | 'A' => Float
    case 'c' | 'C' => Character
    case 's' | 'S' => Text
    case 'p' => Pointer
    case 'n' => SavePos
    case _ => Invalid
  }

  // ValidArgumentReplacement
  predicate ValidArgumentReplacement(original: ArgType, replacement: ArgType) {
    || (original == Character && replacement == Integer)
    || (original == Text && replacement == Pointer)
    || original == replacement
  }

  // ---------- What the check sees in a format string ----------

  // The place after the first % from i on that is not doubled.
  function AfterPercent(s: CString, i: nat): (j: nat)
    requires i <= |s|
    ensures i <= j <= |s|
    decreases |s| - i
  {
    if i == |s| then i
    else if s[i] != '%' then AfterPercent(s, i + 1)
    else if i + 1 < |s| && s[i + 1] == '%' then AfterPercent(s, i + 2)
    else i + 1
  }

  // The place of the first conversion character from i on.
  function Conversion(s: CString, i: nat): (j: nat)
    requires i <= |s|
    ensures i <= j <= |s|
    ensures j < |s| ==> FormatArgumentType(s[j]) != Invalid
    decreases |s| - i
  {
    if i == |s| || FormatArgumentType(s[i]) != Invalid then i else Conversion(s, i + 1)
  }

  // The types that the check finds in s from i on.
  function ArgTypes(s: CString, i: nat): seq<ArgType>
    requires i <= |s|
    decreases |s| - i
  {
    var j := Conversion(s, AfterPercent(s, i));
    if j == |s| then [] else [FormatArgumentType(s[j])] + ArgTypes(s, j + 1)
  }

  // What the check lets through: no more types than in `original`, and each one compatible.
  predicate Accepted(original: CString, replacement: CString) {
    AcceptedTypes(ArgTypes(original, 0), ArgTypes(replacement, 0))
  }

  predicate AcceptedTypes(o: seq<ArgType>, r: seq<ArgType>) {
    |r| <= |o| && forall i | 0 <= i < |r| :: ValidArgumentReplacement(o[i], r[i])
  }

  lemma AcceptedTypesStep(a: ArgType, o: seq<ArgType>, b: ArgType, r: seq<ArgType>)
    ensures AcceptedTypes([a] + o, [b] + r) <==> ValidArgumentReplacement(a, b) && AcceptedTypes(o, r)
  {
    hide ValidArgumentReplacement;
    var o1, r1 := [a] + o, [b] + r;
    if AcceptedTypes(o1, r1) {
      assert ValidArgumentReplacement(o1[0], r1[0]);
      forall i | 0 <= i < |r|
        ensures ValidArgumentReplacement(o[i], r[i])
      {
        assert ValidArgumentReplacement(o1[i + 1], r1[i + 1]);
      }
    }
  }

  // NextFormatArgument: the next argument's type and the place after it, or Invalid.
  method NextFormatArgument(s: CString, pos: nat) returns (arg: ArgType, next: nat)
    requires pos <= |s|
    ensures next <= |s|
    ensures ArgTypes(s, pos) == if arg == Invalid then [] else [arg] + ArgTypes(s, next)
  {
    hide FormatArgumentType;
    var p := pos;
    while p < |s|
      invariant p <= |s| && AfterPercent(s, pos) == AfterPercent(s, p)
    {
      if s[p] == '%' {
        p := p + 1;
        if p == |s| || s[p] != '%' {
          break;
        }
      }
      p := p + 1;
    }
    assert p == AfterPercent(s, pos);
    while p < |s|
      invariant p <= |s| && Conversion(s, AfterPercent(s, pos)) == Conversion(s, p)
    {
      arg := FormatArgumentType(s[p]);
      if arg != Invalid {
        return arg, p + 1;
      }
      p := p + 1;
    }
    return Invalid, |s|;
  }

  // ValidFormatReplacement: exactly those.
  method ValidFormatReplacement(original: CString, replacement: CString) returns (valid: bool)
    ensures valid == Accepted(original, replacement)
  {
    hide ArgTypes, AcceptedTypes, ValidArgumentReplacement;
    var rover1: nat, rover2: nat := 0, 0;
    while true
      invariant rover1 <= |original| && rover2 <= |replacement|
      invariant Accepted(original, replacement)
          == AcceptedTypes(ArgTypes(original, rover1), ArgTypes(replacement, rover2))
      decreases |ArgTypes(replacement, rover2)|
    {
      var arg1, arg2;
      ghost var before1, before2 := rover1, rover2;
      arg1, rover1 := NextFormatArgument(original, rover1);
      arg2, rover2 := NextFormatArgument(replacement, rover2);
      if arg2 == Invalid {
        AcceptedTypesEnd(ArgTypes(original, before1));
        break;
      } else if arg1 == Invalid {
        TooManyTypes(ArgTypes(replacement, before2));
        return false;
      }
      AcceptedTypesStep(arg1, ArgTypes(original, rover1), arg2, ArgTypes(replacement, rover2));
      if !ValidArgumentReplacement(arg1, arg2) {
        return false;
      }
    }
    valid := true;
  }

  lemma AcceptedTypesEnd(o: seq<ArgType>)
    ensures AcceptedTypes(o, [])
  {}

  lemma TooManyTypes(r: seq<ArgType>)
    requires r != []
    ensures !AcceptedTypes([], r)
  {}

  // ---------- What the check is worth ----------

  // What stands between a % and its conversion is nothing to the check.
  lemma {:induction false} ConversionIs(s: CString, i: nat, j: nat)
    requires i <= j < |s| && FormatArgumentType(s[j]) != Invalid
    requires forall k | i <= k < j :: FormatArgumentType(s[k]) == Invalid
    ensures Conversion(s, i) == j
    decreases j - i
  {
    if i < j { ConversionIs(s, i + 1, j); }
  }

  function Kind(d: Directive): ArgType {
    FormatArgumentType(d.conversion)
  }

  function Kinds(ds: seq<Directive>): (r: seq<ArgType>)
    ensures |r| == |ds| && forall k | 0 <= k < |ds| :: r[k] == Kind(ds[k])
  {
    seq(|ds|, k requires 0 <= k < |ds| => Kind(ds[k]))
  }

  lemma SkippedIsInvalid(c: Char)
    requires Before(c)
    ensures FormatArgumentType(c) == Invalid
  {}

  lemma KindsOfMore(d: Directive, rest: seq<Directive>)
    ensures Kinds([d] + rest) == [Kind(d)] + Kinds(rest)
  {
    hide Kind;
  }

  // Of a format that the standard allows, the check finds every conversion, and nothing else of it.
  lemma {:induction false} ScannerSeesKinds(s: CString, i: nat)
    requires i <= |s| && Directives(s, i).Known?
    ensures ArgTypes(s, i) == Kinds(Directives(s, i).value)
    decreases |s| - i
  {
    hide FormatArgumentType, ReadType, BeforeConversion, Kinds;
    if i == |s| {
      NoKinds();
    } else if s[i] != '%' {
      ScannerSeesKinds(s, i + 1);
    } else if i + 1 < |s| && s[i + 1] == '%' {
      ScannerSeesKinds(s, i + 2);
    } else {
      var j := BeforeConversion(s, i + 1).2;
      KnownConversion(s[j], BeforeConversion(s, i + 1).1);
      forall k | i + 1 <= k < j
        ensures FormatArgumentType(s[k]) == Invalid
      {
        SkippedIsInvalid(s[k]);
      }
      ConversionIs(s, i + 1, j);
      ScannerSeesKinds(s, j + 1);
      var before := BeforeConversion(s, i + 1);
      KindsOfMore(Directive(before.0, before.1, s[j]), Directives(s, j + 1).value);
    }
  }

  lemma NoKinds()
    ensures Kinds([]) == []
  {}

  lemma KnownConversion(c: Char, length: Length)
    requires ReadType(c, length) != Undefined
    ensures FormatArgumentType(c) != Invalid
  {}

  // Two directives whose widths, precisions and length modifiers agree, as far as arguments go.
  predicate Agree(o: Directive, r: Directive) {
    && o.stars == r.stars
    && (|| (NeedsNoLength(o) && NeedsNoLength(r))
        || (o.length == r.length && Kind(o) == Kind(r)))
  }

  // The length modifier is absent or has no effect on the argument.
  predicate NeedsNoLength(d: Directive) {
    TypeOf(d) == ReadType(d.conversion, NoLength)
  }

  predicate AllAgree(o: seq<Directive>, r: seq<Directive>) {
    forall k | 0 <= k < |o| && k < |r| :: Agree(o[k], r[k])
  }

  predicate AllDefined(ds: seq<Directive>) {
    forall k | 0 <= k < |ds| :: TypeOf(ds[k]) != Undefined
  }

  // An int is passed and read as a character, which printf does from an int.
  predicate IntAsCharacter(o: Directive, r: Directive) {
    Kind(o) == Integer && Kind(r) == Character
  }

  predicate NoIntAsCharacter(o: seq<Directive>, r: seq<Directive>) {
    forall k | 0 <= k < |o| && k < |r| :: !IntAsCharacter(o[k], r[k])
  }

  lemma OneDirective(o: Directive, r: Directive)
    requires Agree(o, r) && TypeOf(o) != Undefined && TypeOf(r) != Undefined
    ensures ValidArgumentReplacement(Kind(o), Kind(r))
      <==> Compatible(TypeOf(o), TypeOf(r)) && !IntAsCharacter(o, r)
  {
  }

  lemma SafeArgsStep(a: CType, o: seq<CType>, b: CType, r: seq<CType>)
    ensures SafeArgs([a] + o, [b] + r) <==> Compatible(a, b) && SafeArgs(o, r)
  {
    hide Compatible;
    var o1, r1 := [a] + o, [b] + r;
    if SafeArgs(o1, r1) {
      assert Compatible(o1[0], r1[0]);
      forall i | 0 <= i < |r|
        ensures Compatible(o[i], r[i])
      {
        assert Compatible(o1[i + 1], r1[i + 1]);
      }
    }
  }

  lemma {:induction false} SameStars(n: nat, o: seq<CType>, r: seq<CType>)
    ensures SafeArgs(seq(n, _ => Int) + o, seq(n, _ => Int) + r) <==> SafeArgs(o, r)
  {
    hide SafeArgs;
    if n == 0 {
      assert seq(n, _ => Int) + o == o && seq(n, _ => Int) + r == r;
    } else {
      SameStars(n - 1, o, r);
      var ints := seq(n - 1, _ => Int);
      SafeArgsStep(Int, ints + o, Int, ints + r);
      assert seq(n, _ => Int) + o == [Int] + (ints + o);
      assert seq(n, _ => Int) + r == [Int] + (ints + r);
    }
  }

  lemma {:induction false} AgreeingDirectives(o: seq<Directive>, r: seq<Directive>)
    requires AllAgree(o, r) && AllDefined(o) && AllDefined(r)
    ensures AcceptedTypes(Kinds(o), Kinds(r)) <==> SafeArgs(Args(o), Args(r)) && NoIntAsCharacter(o, r)
  {
    hide Kind, TypeOf, Compatible, ValidArgumentReplacement, Agree, IntAsCharacter;
    if r == [] {
    } else if o == [] {
      assert |Args(r)| > 0;
    } else {
      hide SafeArgs, AcceptedTypes, NoIntAsCharacter, Kinds, Args;
      AgreeingDirectives(o[1..], r[1..]);
      assert Agree(o[0], r[0]);
      OneDirective(o[0], r[0]);
      AcceptedTypesStep(Kind(o[0]), Kinds(o[1..]), Kind(r[0]), Kinds(r[1..]));
      KindsStep(o);
      KindsStep(r);
      ArgsStep(o[0], o, r[0], r);
      NoIntAsCharacterStep(o, r);
    }
  }

  lemma KindsStep(ds: seq<Directive>)
    requires ds != []
    ensures Kinds(ds) == [Kind(ds[0])] + Kinds(ds[1..])
  {
    hide Kind;
  }

  lemma ArgsStep(a: Directive, o: seq<Directive>, b: Directive, r: seq<Directive>)
    requires o != [] && r != [] && a == o[0] && b == r[0] && Agree(a, b)
    ensures SafeArgs(Args(o), Args(r))
      <==> Compatible(TypeOf(a), TypeOf(b)) && SafeArgs(Args(o[1..]), Args(r[1..]))
  {
    hide Compatible, SafeArgs, TypeOf, Kind, NeedsNoLength;
    var restO, restR := Args(o[1..]), Args(r[1..]);
    SafeArgsStep(TypeOf(a), restO, TypeOf(b), restR);
    SameStars(a.stars, [TypeOf(a)] + restO, [TypeOf(b)] + restR);
    assert Args(o) == seq(a.stars, _ => Int) + ([TypeOf(a)] + restO);
    assert Args(r) == seq(a.stars, _ => Int) + ([TypeOf(b)] + restR);
  }

  lemma NoIntAsCharacterStep(o: seq<Directive>, r: seq<Directive>)
    requires o != [] && r != []
    ensures NoIntAsCharacter(o, r) <==> !IntAsCharacter(o[0], r[0]) && NoIntAsCharacter(o[1..], r[1..])
  {
    hide IntAsCharacter;
    if NoIntAsCharacter(o, r) {
      forall k | 0 <= k < |o[1..]| && k < |r[1..]|
        ensures !IntAsCharacter(o[1..][k], r[1..][k])
      {
        assert !IntAsCharacter(o[k + 1], r[k + 1]);
      }
    } else {
      var k :| 0 <= k < |o| && k < |r| && IntAsCharacter(o[k], r[k]);
      if k > 0 { assert IntAsCharacter(o[1..][k - 1], r[1..][k - 1]); }
    }
  }

  lemma {:induction false} KnownIsDefined(s: CString, i: nat)
    requires i <= |s| && Directives(s, i).Known?
    ensures AllDefined(Directives(s, i).value)
    decreases |s| - i
  {
    hide ReadType, BeforeConversion;
    if i == |s| {
    } else if s[i] != '%' {
      KnownIsDefined(s, i + 1);
    } else if i + 1 < |s| && s[i + 1] == '%' {
      KnownIsDefined(s, i + 2);
    } else {
      KnownIsDefined(s, BeforeConversion(s, i + 1).2 + 1);
    }
  }

  // The standard allows the format.
  predicate Allowed(s: CString) {
    Directives(s, 0).Known?
  }

  // Where both formats have a directive, their widths, precisions and length modifiers agree.
  predicate Comparable(original: CString, replacement: CString) {
    Allowed(original) && Allowed(replacement)
    ==> AllAgree(Directives(original, 0).value, Directives(replacement, 0).value)
  }

  predicate ReadsIntAsCharacter(original: CString, replacement: CString) {
    && Allowed(original) && Allowed(replacement)
    && !NoIntAsCharacter(Directives(original, 0).value, Directives(replacement, 0).value)
  }

  // What the check is worth for two formats that agree in this way: what it accepts can be given to
  // printf exactly if the standard allows both, and all that can be is accepted, but for an integer
  // that is to be read as a character.
  lemma AcceptedExactlyWhenSafe(original: CString, replacement: CString)
    requires Comparable(original, replacement)
    ensures Accepted(original, replacement) && Allowed(original) && Allowed(replacement)
      <==> PrintfSafe(original, replacement) && !ReadsIntAsCharacter(original, replacement)
  {
    hide Directives, ArgTypes;
    if Allowed(original) && Allowed(replacement) {
      ScannerSeesKinds(original, 0);
      ScannerSeesKinds(replacement, 0);
      KnownIsDefined(original, 0);
      KnownIsDefined(replacement, 0);
      AgreeingDirectives(Directives(original, 0).value, Directives(replacement, 0).value);
    }
  }

  // No format is protected: a single % is accepted in its place, because the check finds no
  // conversion in it, and printf is undefined for it.
  lemma NoFormatIsProtected(o: CString)
    ensures Accepted(o, "%") && !PrintfSafe(o, "%")
  {
    assert ArgTypes("%", 0) == [];
    assert Directives("%", 0) == Malformed;
  }

  // A format of a single directive, without flags and digits.
  function Single(star: bool, long: bool, c: Char): CString {
    if star then (if long then ['%', '*', 'l', c] else ['%', '*', c])
    else (if long then ['%', 'l', c] else ['%', c])
  }

  lemma SingleDirective(star: bool, long: bool, c: Char)
    requires ReadType(c, if long then L else NoLength) != Undefined
    ensures Directives(Single(star, long, c), 0)
      == Known([Directive(if star then 1 else 0, if long then L else NoLength, c)])
  {
    hide ReadType, Before;
    var s := Single(star, long, c);
    var length := if long then L else NoLength;
    ConversionIsNoFlag(c, length);
    assert s[0] == '%' && s[1] != '%' && s[|s| - 1] == c;
    var p := if star then 2 else 1;
    assert Number(s, 1) == (if star then 1 else 0, p);
    assert Precision(s, p) == (0, p);
    assert LengthAt(s, p) == (length, |s| - 1);
    assert BeforeConversion(s, 1) == (if star then 1 else 0, length, |s| - 1);
    assert Directives(s, |s|) == Known([]);
    var d := Directive(if star then 1 else 0, length, c);
    assert [d] + [] == [d];
  }

  lemma ConversionIsNoFlag(c: Char, length: Length)
    requires ReadType(c, length) != Undefined
    ensures !Flag(c) && !Digit(c) && !LengthLetter(c) && c !in ['*', '.', '%']
  {}

  // A replacement of one directive, for a format that starts with this one: the check accepts it,
  // and printf reads another type than the first that is passed.
  function Misread(d: Directive): CString {
    var first := if d.stars > 0 then Int else TypeOf(d);
    var long := first == Int && Kind(d) in {Integer, Character};
    Single(first != Int, long, d.conversion)
  }

  lemma MisreadIsUnsafe(o: CString)
    requires Allowed(o) && Directives(o, 0).value != []
    ensures var r := Misread(Directives(o, 0).value[0]);
      Allowed(r) && Accepted(o, r) && !PrintfSafe(o, r)
  {
    hide Directives, ArgTypes, ReadType, FormatArgumentType;
    var ds := Directives(o, 0).value;
    var d := ds[0];
    var first := if d.stars > 0 then Int else TypeOf(d);
    var long := first == Int && Kind(d) in {Integer, Character};
    var r := Misread(d);
    KnownIsDefined(o, 0);
    MisreadReads(d.conversion, d.length);
    SingleDirective(first != Int, long, d.conversion);
    var read := Directives(r, 0).value;
    ScannerSeesKinds(o, 0);
    ScannerSeesKinds(r, 0);
    assert Kinds(read)[0] == Kinds(ds)[0];
    assert Args(ds)[0] == first;
    assert !Compatible(first, Args(read)[0]);
  }

  lemma MisreadReads(c: Char, length: Length)
    requires ReadType(c, length) != Undefined
    ensures ReadType(c, NoLength) != Undefined
    ensures FormatArgumentType(c) in {Integer, Character}
      ==> ReadType(c, L) !in {Undefined, Int}
    ensures FormatArgumentType(c) !in {Integer, Character} ==> ReadType(c, NoLength) != Int
  {}

  // Among the replacements that the standard allows, the check protects a format against every one
  // exactly when the format has no directive at all.
  lemma ProtectsAmongAllowed(o: CString)
    requires Allowed(o)
    ensures (forall r: CString | Allowed(r) && Accepted(o, r) :: PrintfSafe(o, r))
      <==> Directives(o, 0).value == []
  {
    hide Directives, ArgTypes;
    if Directives(o, 0).value != [] {
      MisreadIsUnsafe(o);
    } else {
      forall r: CString | Allowed(r) && Accepted(o, r)
        ensures PrintfSafe(o, r)
      {
        ScannerSeesKinds(o, 0);
        ScannerSeesKinds(r, 0);
      }
    }
  }

  // ---------- Which replacements can be trusted ----------

  function Letter(kind: ArgType): Char {
    match kind
    case Integer => 'd'
    case Float => 'f'
    case Character => 'c'
    case Text => 's'
    case Pointer => 'p'
    case _ => 'n'
  }

  // A format with a plain conversion of each kind.
  function Plain(kinds: seq<ArgType>): CString {
    if kinds == [] then [] else ['%', Letter(kinds[0])] + Plain(kinds[1..])
  }

  ghost predicate IsKinds(ds: Parsed<seq<Directive>>, kinds: seq<ArgType>) {
    ds.Known? && Kinds(ds.value) == kinds
  }

  lemma {:induction false} PlainHasKinds(before: CString, kinds: seq<ArgType>)
    requires forall k | 0 <= k < |kinds| :: kinds[k] != Invalid
    ensures IsKinds(Directives(before + Plain(kinds), |before|), kinds)
    decreases |kinds|
  {
    hide ReadType, FormatArgumentType, BeforeConversion;
    var s := before + Plain(kinds);
    if kinds == [] {
      assert s == before;
    } else {
      var c, next := Letter(kinds[0]), before + ['%', Letter(kinds[0])];
      assert s == next + Plain(kinds[1..]);
      assert s[|before|] == '%' && s[|before| + 1] == c;
      LetterOfKind(kinds[0]);
      AtOnce(s, |before| + 1);
      PlainHasKinds(next, kinds[1..]);
      KindsFirst(Directive(0, NoLength, c), Directives(s, |before| + 2).value, kinds);
    }
  }

  lemma KindsFirst(d: Directive, rest: seq<Directive>, kinds: seq<ArgType>)
    requires kinds != [] && Kind(d) == kinds[0] && Kinds(rest) == kinds[1..]
    ensures Kinds([d] + rest) == kinds
  {
    hide Kind;
    KindsStep([d] + rest);
    assert ([d] + rest)[1..] == rest;
  }

  lemma LetterOfKind(kind: ArgType)
    requires kind != Invalid
    ensures FormatArgumentType(Letter(kind)) == kind && ReadType(Letter(kind), NoLength) != Undefined
    ensures Letter(kind) != '%'
  {}

  // A conversion without anything before it.
  lemma AtOnce(s: CString, i: nat)
    requires i < |s| && ReadType(s[i], NoLength) != Undefined
    ensures BeforeConversion(s, i) == (0, NoLength, i)
  {
    hide ReadType;
    ConversionIsNoFlag(s[i], NoLength);
  }

  lemma {:induction false} TypesAreValid(s: CString, i: nat)
    requires i <= |s|
    ensures forall k | 0 <= k < |ArgTypes(s, i)| :: ArgTypes(s, i)[k] != Invalid
    decreases |s| - i
  {
    hide FormatArgumentType;
    var j := Conversion(s, AfterPercent(s, i));
    if j < |s| { TypesAreValid(s, j + 1); }
  }

  lemma {:induction false} SameTypesAccepted(kinds: seq<ArgType>)
    ensures AcceptedTypes(kinds, kinds)
  {}

  // An original for which the check accepts a replacement that starts with this directive, and
  // which passes another type than the first that printf reads.
  function MisreadAs(d: Directive, kinds: seq<ArgType>): CString
  {
    Misread(d) + (if kinds == [] then [] else Plain(kinds[1..]))
  }

  lemma MisreadOriginal(r: CString)
    requires Allowed(r) && Directives(r, 0).value != []
    ensures var o := MisreadAs(Directives(r, 0).value[0], ArgTypes(r, 0));
      Allowed(o) && Accepted(o, r) && !PrintfSafe(o, r)
    ensures ArgTypes(r, 0) != []
  {
    hide Directives, ArgTypes, ReadType, FormatArgumentType, Single;
    var ds, kinds := Directives(r, 0).value, ArgTypes(r, 0);
    var d := ds[0];
    var first := if d.stars > 0 then Int else TypeOf(d);
    var long := first == Int && Kind(d) in {Integer, Character};
    KnownIsDefined(r, 0);
    ScannerSeesKinds(r, 0);
    TypesAreValid(r, 0);
    MisreadReads(d.conversion, d.length);
    var single, rest := Misread(d), Plain(kinds[1..]);
    PlainHasKinds(single, kinds[1..]);
    SingleThen(first != Int, long, d.conversion, rest);
    var o := single + rest;
    var passed := Directives(o, 0).value;
    var e := passed[0];
    assert passed == [e] + passed[1..];
    KindsFirst(e, passed[1..], kinds);
    ScannerSeesKinds(o, 0);
    SameTypesAccepted(kinds);
    assert Args(ds)[0] == first;
    assert !Compatible(Args(passed)[0], first);
  }

  // The directive of a single format, and what comes after it.
  lemma SingleThen(star: bool, long: bool, c: Char, rest: CString)
    requires ReadType(c, if long then L else NoLength) != Undefined
    ensures var single := Single(star, long, c);
      var later := Directives(single + rest, |single|);
      later.Known? ==>
        Directives(single + rest, 0)
        == Known([Directive(if star then 1 else 0, if long then L else NoLength, c)] + later.value)
  {
    hide ReadType, Before;
    var single := Single(star, long, c);
    var s, n := single + rest, |single|;
    var length := if long then L else NoLength;
    ConversionIsNoFlag(c, length);
    assert s[..n] == single && s[0] == '%' && s[1] != '%' && s[n - 1] == c;
    var p := if star then 2 else 1;
    assert s[p] == if long then 'l' else c;
    assert star ==> s[1] == '*';
    assert Number(s, 1) == (if star then 1 else 0, p);
    assert Precision(s, p) == (0, p);
    assert LengthAt(s, p) == (length, n - 1);
    assert BeforeConversion(s, 1) == (if star then 1 else 0, length, n - 1);
  }

  // A replacement can be trusted, whatever allowed format it is accepted for, exactly when the
  // standard allows it and it has no directive.
  lemma TrustedExactlyWhen(r: CString)
    ensures (forall o: CString | Allowed(o) && Accepted(o, r) :: PrintfSafe(o, r))
      <==> Allowed(r) && Directives(r, 0).value == []
  {
    hide Directives, ArgTypes, FormatArgumentType, ReadType;
    if !Allowed(r) {
      var kinds := ArgTypes(r, 0);
      var o := Plain(kinds);
      TypesAreValid(r, 0);
      PlainHasKinds([], kinds);
      assert [] + o == o;
      ScannerSeesKinds(o, 0);
      SameTypesAccepted(kinds);
      assert Allowed(o) && Accepted(o, r) && !PrintfSafe(o, r);
    } else if Directives(r, 0).value != [] {
      MisreadOriginal(r);
    }
  }

  // Three replacements that are accepted and not safe: printf reads an int that was not passed, a
  // long where an int was passed, and the address of a string as a width.
  lemma AcceptedButUnsafe()
    ensures Accepted("%d", "%*d") && !PrintfSafe("%d", "%*d")
    ensures Accepted("%d", "%ld") && !PrintfSafe("%d", "%ld")
    ensures Accepted("%s", "%*s") && !PrintfSafe("%s", "%*s")
  {
    hide Accepted, PrintfSafe, Compatible;
    assert !Compatible(ReadType('d', NoLength), ReadType('d', L)) by { LongIsNotInt(); }
    OneForOne("%d", "%*d", 'd', true, false);
    OneForOne("%d", "%ld", 'd', false, true);
    OneForOne("%s", "%*s", 's', true, false);
  }

  lemma LongIsNotInt()
    ensures !Compatible(ReadType('d', NoLength), ReadType('d', L))
  {}

  lemma ArgsOfOne(d: Directive)
    ensures Args([d]) == seq(d.stars, _ => Int) + [TypeOf(d)]
  {
    assert Args([]) == [];
  }

  lemma OneForOne(o: CString, r: CString, c: Char, star: bool, long: bool)
    requires o == Single(false, false, c) && r == Single(star, long, c)
    requires ReadType(c, NoLength) != Undefined && ReadType(c, if long then L else NoLength) != Undefined
    requires star || !Compatible(ReadType(c, NoLength), ReadType(c, if long then L else NoLength))
    ensures Accepted(o, r) && !PrintfSafe(o, r)
  {
    hide Directives, ArgTypes, ReadType, FormatArgumentType, Compatible;
    SingleDirective(false, false, c);
    SingleDirective(star, long, c);
    ScannerSeesKinds(o, 0);
    ScannerSeesKinds(r, 0);
    var passed, read := Args(Directives(o, 0).value), Args(Directives(r, 0).value);
    ArgsOfOne(Directives(o, 0).value[0]);
    ArgsOfOne(Directives(r, 0).value[0]);
    assert |passed| == 1 && passed[0] == ReadType(c, NoLength);
    assert |read| == if star then 2 else 1;
    assert !star ==> read[0] == ReadType(c, if long then L else NoLength);
  }

  // FormatStringReplacement: the text that is used is the replacement or the string itself.  If
  // their directives agree, printf can be given it exactly if the standard allows both.
  method FormatStringReplacement(t: HashTable, s: CString) returns (format: CString)
    requires t.Valid()
    ensures Accepted(s, format)
    ensures format == if Accepted(s, Latest(t.history, s)) then Latest(t.history, s) else s
    ensures Comparable(s, Latest(t.history, s)) || format == s
      ==> (PrintfSafe(s, format) <==> Allowed(s) && Allowed(format))
  {
    hide Accepted, Allowed, Directives;
    AcceptsItself(s);
    if Comparable(s, Latest(t.history, s)) && Accepted(s, Latest(t.history, s)) {
      SafeIsAllowed(s, Latest(t.history, s));
      AcceptedExactlyWhenSafe(s, Latest(t.history, s));
    }
    var repl := t.DehString(s);
    var valid := ValidFormatReplacement(s, repl);
    if !valid {
      return s;
    }
    format := repl;
  }

  lemma AcceptsItself(s: CString)
    ensures Accepted(s, s)
    ensures PrintfSafe(s, s) <==> Allowed(s)
  {
    hide Directives, ArgTypes;
  }

  lemma SafeIsAllowed(o: CString, r: CString)
    ensures PrintfSafe(o, r) ==> Allowed(o) && Allowed(r)
  {}
}
