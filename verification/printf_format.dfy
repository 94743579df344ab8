// The arguments that printf reads for a format string, after section 7.21.6.1 of ISO/IEC
// 9899:2011.  What deh_str.c makes of a format string is measured against this.
module PrintfFormat {
  import opened DehStr

  datatype Length = NoLength | HH | H | L | LL | J | Z | T | BigL

  // The type at which an argument is passed, or read.
  datatype CType =
    | Int | Long | LongLong | IntMax | Size | PtrDiff | Double | LongDouble | WInt
    | CharPtr | WCharPtr | VoidPtr | CountPtr(length: Length) | Undefined

  // The type that a conversion reads; Undefined where the standard leaves it open.
  function ReadType(c: Char, length: Length): CType {
    match c
    case 'd' | 'i' | 'o' | 'u' | 'x' | 'X' => (
      match length
      case NoLength => Int case HH => Int case H => Int
      case L => Long case LL => LongLong case J => IntMax case Z => Size case T => PtrDiff
      case BigL => Undefined)
    case 'e' | 'E' | 'f' | 'F' | 'g' | 'G' | 'a' | 'A' => (
      match length case NoLength => Double case L => Double case BigL => LongDouble case _ => Undefined)
    case 'c' => (match length case NoLength => Int case L => WInt case _ => Undefined)
    case 's' => (match length case NoLength => CharPtr case L => WCharPtr case _ => Undefined)
    case 'p' => if length == NoLength then VoidPtr else Undefined
    case 'n' => if length == BigL then Undefined else CountPtr(length)
    case _ => Undefined
  }

  // One directive: how many of its width and precision are stars, the length modifier, and the
  // conversion.
  datatype Directive = Directive(stars: nat, length: Length, conversion: Char)

  function TypeOf(d: Directive): CType {
    ReadType(d.conversion, d.length)
  }

  predicate Flag(c: Char) {
    match c case '-' | '+' | ' ' | '#' | '0' => true case _ => false
  }

  predicate Digit(c: Char) {
    '0' <= c <= '9'
  }

  predicate LengthLetter(c: Char) {
    match c case 'h' | 'l' | 'j' | 'z' | 't' | 'L' => true case _ => false
  }

  // What may stand between a % and its conversion.
  predicate Before(c: Char) {
    Flag(c) || Digit(c) || LengthLetter(c) || c == '*' || c == '.'
  }

  function SkipFlags(s: CString, i: nat): (j: nat)
    requires i <= |s|
    ensures i <= j <= |s|
    ensures forall k | i <= k < j :: Before(s[k])
    decreases |s| - i
  {
    if i < |s| && Flag(s[i]) then SkipFlags(s, i + 1) else i
  }

  function SkipDigits(s: CString, i: nat): (j: nat)
    requires i <= |s|
    ensures i <= j <= |s|
    ensures forall k | i <= k < j :: Before(s[k])
    decreases |s| - i
  {
    if i < |s| && Digit(s[i]) then SkipDigits(s, i + 1) else i
  }

  // A number or a star: how many stars, and where it ends.
  function Number(s: CString, i: nat): (r: (nat, nat))
    requires i <= |s|
    ensures i <= r.1 <= |s|
    ensures forall k | i <= k < r.1 :: Before(s[k])
  {
    if i < |s| && s[i] == '*' then (1, i + 1) else (0, SkipDigits(s, i))
  }

  function Precision(s: CString, i: nat): (r: (nat, nat))
    requires i <= |s|
    ensures i <= r.1 <= |s|
    ensures forall k | i <= k < r.1 :: Before(s[k])
  {
    if i < |s| && s[i] == '.' then Number(s, i + 1) else (0, i)
  }

  function LengthAt(s: CString, i: nat): (r: (Length, nat))
    requires i <= |s|
    ensures i <= r.1 <= |s|
    ensures forall k | i <= k < r.1 :: Before(s[k])
  {
    if i == |s| then (NoLength, i)
    else if s[i] == 'h' then (if i + 1 < |s| && s[i + 1] == 'h' then (HH, i + 2) else (H, i + 1))
    else if s[i] == 'l' then (if i + 1 < |s| && s[i + 1] == 'l' then (LL, i + 2) else (L, i + 1))
    else if s[i] == 'j' then (J, i + 1)
    else if s[i] == 'z' then (Z, i + 1)
    else if s[i] == 't' then (T, i + 1)
    else if s[i] == 'L' then (BigL, i + 1)
    else (NoLength, i)
  }

  datatype Parsed<X> = Malformed | Known(value: X)

  // Where the conversion of the directive that follows a % at i - 1 stands, and what is before it.
  function BeforeConversion(s: CString, i: nat): (r: (nat, Length, nat))
    requires i <= |s|
    ensures i <= r.2 <= |s|
    ensures forall k | i <= k < r.2 :: Before(s[k])
  {
    var flags := SkipFlags(s, i);
    var width := Number(s, flags);
    var precision := Precision(s, width.1);
    var length := LengthAt(s, precision.1);
    (width.0 + precision.0, length.0, length.1)
  }

  // The directives of a format from i on.
  function Directives(s: CString, i: nat): Parsed<seq<Directive>>
    requires i <= |s|
    decreases |s| - i
  {
    if i == |s| then Known([])
    else if s[i] != '%' then Directives(s, i + 1)
    else if i + 1 < |s| && s[i + 1] == '%' then Directives(s, i + 2)
    else
      var (stars, length, j) := BeforeConversion(s, i + 1);
      if j == |s| || ReadType(s[j], length) == Undefined then Malformed
      else
        match Directives(s, j + 1)
        case Malformed => Malformed
        case Known(rest) => Known([Directive(stars, length, s[j])] + rest)
  }

  // A directive reads an int for each star, and then its own argument.
  function Args(ds: seq<Directive>): seq<CType> {
    if ds == [] then [] else seq(ds[0].stars, _ => Int) + [TypeOf(ds[0])] + Args(ds[1..])
  }

  // What may be read where an argument of a type was passed: the same type, or a string as the
  // address that it is.
  predicate Compatible(passed: CType, read: CType) {
    passed == read || (passed == CharPtr && read == VoidPtr)
  }

  predicate SafeArgs(passed: seq<CType>, read: seq<CType>) {
    |read| <= |passed| && forall i | 0 <= i < |read| :: Compatible(passed[i], read[i])
  }

  // With the arguments of `original`, printf may be given `replacement`.
  predicate PrintfSafe(original: CString, replacement: CString) {
    var o, r := Directives(original, 0), Directives(replacement, 0);
    o.Known? && r.Known? && SafeArgs(Args(o.value), Args(r.value))
  }
}
