// i_glob.c: which file names a pattern matches, and how the names found are sorted.
module Glob {

  // tolower, where case does not matter.
  function Fold(c: char, noCase: bool): char {
    if noCase && 'A' <= c <= 'Z' then c - 'A' + 'a' else c
  }

  // ---------- What a pattern means ----------

  // A part of a name that one character of a pattern stands for.
  predicate PieceOk(piece: string, g: char, noCase: bool) {
    if g == '*' then true
    else |piece| == 1 && (g == '?' || Fold(piece[0], noCase) == Fold(g, noCase))
  }

  function Join(pieces: seq<string>): string {
    if pieces == [] then [] else pieces[0] + Join(pieces[1..])
  }

  ghost predicate Fits(pieces: seq<string>, name: string, glob: string, noCase: bool) {
    && |pieces| == |glob| && Join(pieces) == name
    && forall i | 0 <= i < |glob| :: PieceOk(pieces[i], glob[i], noCase)
  }

  // The name is made of one piece for each character of the pattern.
  ghost predicate InLanguage(name: string, glob: string, noCase: bool) {
    exists pieces: seq<string> :: Fits(pieces, name, glob, noCase)
  }

  lemma LanguageEmpty(name: string, noCase: bool)
    ensures InLanguage(name, "", noCase) <==> name == ""
  {
    if name == "" {
      assert Fits([], name, "", noCase);
    }
  }

  lemma FitsCons(piece: string, pieces: seq<string>, name: string, glob: string, noCase: bool)
    requires glob != "" && PieceOk(piece, glob[0], noCase) && Fits(pieces, name, glob[1..], noCase)
    ensures InLanguage(piece + name, glob, noCase)
  {
    var all := [piece] + pieces;
    assert all[1..] == pieces;
    assert Fits(all, piece + name, glob, noCase);
  }

  lemma LanguageStar(name: string, glob: string, noCase: bool)
    requires glob != "" && glob[0] == '*'
    ensures InLanguage(name, glob, noCase) <==> exists k | 0 <= k <= |name| :: InLanguage(name[k..], glob[1..], noCase)
  {
    if InLanguage(name, glob, noCase) {
      var pieces :| Fits(pieces, name, glob, noCase);
      var k := |pieces[0]|;
      assert name[k..] == Join(pieces[1..]);
      assert Fits(pieces[1..], name[k..], glob[1..], noCase);
      assert InLanguage(name[k..], glob[1..], noCase);
    }
    if k :| 0 <= k <= |name| && InLanguage(name[k..], glob[1..], noCase) {
      var pieces :| Fits(pieces, name[k..], glob[1..], noCase);
      FitsCons(name[..k], pieces, name[k..], glob, noCase);
      assert name[..k] + name[k..] == name;
    }
  }

  lemma LanguageChar(name: string, glob: string, noCase: bool)
    requires glob != "" && glob[0] != '*'
    ensures InLanguage(name, glob, noCase) <==>
            name != "" && (glob[0] == '?' || Fold(name[0], noCase) == Fold(glob[0], noCase))
                && InLanguage(name[1..], glob[1..], noCase)
  {
    if InLanguage(name, glob, noCase) {
      var pieces :| Fits(pieces, name, glob, noCase);
      assert name[1..] == Join(pieces[1..]);
      assert Fits(pieces[1..], name[1..], glob[1..], noCase);
    }
    if name != "" && (glob[0] == '?' || Fold(name[0], noCase) == Fold(glob[0], noCase))
        && InLanguage(name[1..], glob[1..], noCase) {
      var pieces :| Fits(pieces, name[1..], glob[1..], noCase);
      FitsCons([name[0]], pieces, name[1..], glob, noCase);
      assert [name[0]] + name[1..] == name;
    }
  }

  // ---------- What the matcher finds ----------

  // A '?' at the end of the name makes the matcher read past it.
  datatype Outcome = Yes | No | ReadsPastEnd

  // Folding a pattern character never makes or hides a star or a question mark.
  function Found(name: string, glob: string, noCase: bool): Outcome
    decreases |glob|, 1, 0
  {
    if glob == "" then (if name == "" then Yes else No)
    else if glob[0] == '*' then TryAll(name, glob, noCase)
    else if name == "" then (if glob[0] == '?' then ReadsPastEnd else No)
    else if glob[0] != '?' && Fold(name[0], noCase) != Fold(glob[0], noCase) then No
    else Found(name[1..], glob[1..], noCase)
  }

  // After a star: every character of the name in turn, but not its end.
  function TryAll(name: string, glob: string, noCase: bool): Outcome
    requires glob != ""
    decreases |glob|, 0, |name|
  {
    if name == "" then (if |glob| == 1 then Yes else No)
    else
      match Found(name, glob[1..], noCase)
      case Yes => Yes
      case ReadsPastEnd => ReadsPastEnd
      case No => TryAll(name[1..], glob, noCase)
  }

  predicate EndsInTwoStars(glob: string) {
    |glob| >= 2 && glob[|glob| - 1] == '*' && glob[|glob| - 2] == '*'
  }

  // A '?' at place i can meet the end of the name: no star stands before it.
  predicate Exposed(glob: string, i: nat) {
    i < |glob| && glob[i] == '?' && (i == 0 || glob[i - 1] != '*')
  }

  // Only an exposed '?' can; one behind a star is tried on what is left of the name alone.
  lemma {:induction false} StaysWithin(name: string, glob: string, noCase: bool)
    requires (forall i | 0 < i < |glob| :: !Exposed(glob, i)) && (name == "" ==> !Exposed(glob, 0))
    ensures Found(name, glob, noCase) != ReadsPastEnd
    decreases |glob|, 1, 0
  {
    if glob != "" {
      ExposedRest(glob);
      if glob[0] == '*' {
        StaysWithinAll(name, glob, noCase);
      } else if name != "" {
        StaysWithin(name[1..], glob[1..], noCase);
      }
    }
  }

  lemma {:induction false} StaysWithinAll(name: string, glob: string, noCase: bool)
    requires glob != "" && glob[0] == '*' && forall i | 0 < i < |glob| :: !Exposed(glob, i)
    ensures TryAll(name, glob, noCase) != ReadsPastEnd
    decreases |glob|, 0, |name|
  {
    if name != "" {
      ExposedRest(glob);
      StaysWithin(name, glob[1..], noCase);
      StaysWithinAll(name[1..], glob, noCase);
    }
  }

  lemma ExposedRest(glob: string)
    requires glob != ""
    ensures forall i | 0 < i < |glob| - 1 :: Exposed(glob[1..], i) <==> Exposed(glob, i + 1)
    ensures glob[0] != '*' ==> (Exposed(glob[1..], 0) <==> Exposed(glob, 1))
  {}

  // The empty name only matches stars.
  lemma {:induction false} EmptyName(glob: string, noCase: bool)
    requires InLanguage("", glob, noCase)
    ensures forall i | 0 <= i < |glob| :: glob[i] == '*'
  {
    if glob != "" {
      if glob[0] == '*' {
        LanguageStar("", glob, noCase);
        EmptyName(glob[1..], noCase);
        assert forall i | 1 <= i < |glob| :: glob[i] == glob[1..][i - 1];
      } else {
        LanguageChar("", glob, noCase);
      }
    }
  }

  // ---------- Where the matcher is right ----------

  // Unless the pattern ends in two stars, a matcher that stays within the name decides the language.
  lemma {:induction false} FoundIsLanguage(name: string, glob: string, noCase: bool)
    requires Found(name, glob, noCase) != ReadsPastEnd && !EndsInTwoStars(glob)
    ensures Found(name, glob, noCase) == Yes <==> InLanguage(name, glob, noCase)
    decreases |glob|, 1, 0
  {
    hide InLanguage;
    if glob == "" {
      LanguageEmpty(name, noCase);
    } else if glob[0] == '*' {
      LanguageStar(name, glob, noCase);
      TryAllIsLanguage(name, glob, noCase);
    } else {
      LanguageChar(name, glob, noCase);
      if name != "" && (glob[0] == '?' || Fold(name[0], noCase) == Fold(glob[0], noCase)) {
        FoundIsLanguage(name[1..], glob[1..], noCase);
      }
    }
  }

  lemma {:induction false} TryAllIsLanguage(name: string, glob: string, noCase: bool)
    requires glob != "" && glob[0] == '*' && TryAll(name, glob, noCase) != ReadsPastEnd && !EndsInTwoStars(glob)
    ensures TryAll(name, glob, noCase) == Yes
        <==> exists k | 0 <= k <= |name| :: InLanguage(name[k..], glob[1..], noCase)
    decreases |glob|, 0, |name|
  {
    hide InLanguage;
    var rest := glob[1..];
    if name == "" {
      assert name[0..] == "";
      if rest == "" {
        LanguageEmpty("", noCase);
      } else {
        NoTrailingStars(glob, noCase);
      }
    } else {
      assert name[0..] == name;
      if Found(name, rest, noCase) != ReadsPastEnd {
        FoundIsLanguage(name, rest, noCase);
        if Found(name, rest, noCase) == No {
          TryAllIsLanguage(name[1..], glob, noCase);
          assert forall k | 1 <= k <= |name| :: name[k..] == name[1..][k - 1..];
          assert forall k | 0 <= k <= |name[1..]| :: name[1..][k..] == name[k + 1..];
        }
      }
    }
  }

  lemma NoTrailingStars(glob: string, noCase: bool)
    requires |glob| > 1 && glob[0] == '*' && !EndsInTwoStars(glob)
    ensures forall k | 0 <= k <= 0 :: !InLanguage(""[k..], glob[1..], noCase)
  {
    assert glob[|glob| - 1] == glob[1..][|glob| - 2];
    assert |glob| > 2 ==> glob[|glob| - 2] == glob[1..][|glob| - 3];
    assert ""[0..] == "";
    if InLanguage("", glob[1..], noCase) {
      EmptyName(glob[1..], noCase);
      assert false;
    }
  }

  // The characters of a pattern that are no stars.
  function Literals(glob: string): string {
    if glob == "" then "" else (if glob[0] == '*' then "" else [glob[0]]) + Literals(glob[1..])
  }

  lemma {:induction false} LiteralsMatch(glob: string, noCase: bool)
    ensures InLanguage(Literals(glob), glob, noCase)
  {
    hide InLanguage;
    if glob == "" {
      LanguageEmpty("", noCase);
    } else {
      LiteralsMatch(glob[1..], noCase);
      var name := Literals(glob);
      if glob[0] == '*' {
        LanguageStar(name, glob, noCase);
        assert name[0..] == Literals(glob[1..]);
      } else {
        LanguageChar(name, glob, noCase);
        assert name[1..] == Literals(glob[1..]);
      }
    }
  }

  // The length that the matcher asks for: two stars at the end take one character at least.
  function Need(glob: string): nat {
    |Literals(glob)| + (if EndsInTwoStars(glob) then 1 else 0)
  }

  lemma NeedNothing()
    ensures Need("") == 0
  {}

  lemma EndsRest(glob: string)
    requires |glob| > 2
    ensures EndsInTwoStars(glob) == EndsInTwoStars(glob[1..])
  {
    assert glob[|glob| - 1] == glob[1..][|glob| - 2] && glob[|glob| - 2] == glob[1..][|glob| - 3];
  }

  lemma LiteralsStep(glob: string)
    requires glob != ""
    ensures |Literals(glob)| == (if glob[0] == '*' then 0 else 1) + |Literals(glob[1..])|
  {}

  lemma NeedStep(glob: string)
    requires glob != ""
    ensures glob[0] != '*' ==> Need(glob) == 1 + Need(glob[1..])
    ensures glob[0] == '*' ==> Need(glob) == Need(glob[1..]) || (glob == "**" && Need(glob) == 1)
    ensures |glob| == 1 && glob[0] == '*' ==> Need(glob) == 0
  {
    hide Literals;
    LiteralsStep(glob);
    if |glob| > 2 {
      EndsRest(glob);
    } else if |glob| == 2 {
      assert glob[1..][0] == glob[1];
      LiteralsStep(glob[1..]);
      NoLiterals(glob[1..][1..]);
      assert glob[0] == '*' && glob[1] == '*' ==> glob == "**";
    } else {
      NoLiterals(glob[1..]);
    }
  }

  lemma NoLiterals(glob: string)
    ensures glob == "" ==> Literals(glob) == ""
  {}

  lemma {:induction false} FoundIsLongEnough(name: string, glob: string, noCase: bool)
    ensures Found(name, glob, noCase) == Yes ==> |name| >= Need(glob)
    decreases |glob|, 1, 0
  {
    hide Need;
    if glob == "" {
      assert Need("") == 0 by { NeedNothing(); }
    } else {
      NeedStep(glob);
      if glob[0] == '*' {
        TryAllIsLongEnough(name, glob, noCase);
      } else if name != "" {
        FoundIsLongEnough(name[1..], glob[1..], noCase);
      }
    }
  }

  lemma {:induction false} TryAllIsLongEnough(name: string, glob: string, noCase: bool)
    requires glob != "" && glob[0] == '*'
    ensures TryAll(name, glob, noCase) == Yes ==> |name| >= Need(glob)
    decreases |glob|, 0, |name|
  {
    hide Need;
    NeedStep(glob);
    if name != "" {
      FoundIsLongEnough(name, glob[1..], noCase);
      TryAllIsLongEnough(name[1..], glob, noCase);
    }
  }

  // The shortest name for what stands before an exposed '?' leads the matcher there, with nothing left.
  lemma {:induction false} ReachesQuestionMark(glob: string, i: nat, noCase: bool)
    requires Exposed(glob, i)
    ensures Found(Literals(glob[..i]), glob, noCase) == ReadsPastEnd
    decreases i
  {
    if i > 0 {
      assert glob[..i][1..] == glob[1..][..i - 1];
      ReachesQuestionMark(glob[1..], i - 1, noCase);
      var name := Literals(glob[..i]);
      if glob[0] == '*' {
        LastLiteral(glob[..i]);
        assert name == Literals(glob[1..][..i - 1]);
      } else {
        assert name[1..] == Literals(glob[1..][..i - 1]);
      }
    }
  }

  lemma {:induction false} LastLiteral(glob: string)
    requires glob != "" && glob[|glob| - 1] != '*'
    ensures Literals(glob) != ""
  {
    if |glob| > 1 {
      LastLiteral(glob[1..]);
    }
  }

  // Some name takes the matcher past its end exactly when the pattern has an exposed '?'.
  lemma ReadsPastEndExactlyWhen(glob: string, noCase: bool)
    ensures (exists name: string :: Found(name, glob, noCase) == ReadsPastEnd) <==> exists i: nat :: Exposed(glob, i)
  {
    hide Found, Exposed;
    if i: nat :| Exposed(glob, i) {
      ReachesQuestionMark(glob, i, noCase);
    } else {
      forall name: string ensures Found(name, glob, noCase) != ReadsPastEnd {
        StaysWithin(name, glob, noCase);
      }
    }
  }

  // The matcher stays within the name and decides the language.
  ghost predicate Right(name: string, glob: string, noCase: bool) {
    && Found(name, glob, noCase) != ReadsPastEnd
    && (Found(name, glob, noCase) == Yes <==> InLanguage(name, glob, noCase))
  }

  // A pattern is matched right, whatever the name, exactly when it does not end in two stars
  // and has no exposed '?'.
  lemma RightExactlyWhen(glob: string, noCase: bool)
    ensures (forall name: string :: Right(name, glob, noCase))
            <==> !EndsInTwoStars(glob) && forall i: nat :: !Exposed(glob, i)
  {
    hide InLanguage, Found, Exposed, EndsInTwoStars;
    ReadsPastEndExactlyWhen(glob, noCase);
    if i: nat :| Exposed(glob, i) {
      var name: string :| Found(name, glob, noCase) == ReadsPastEnd;
      assert !Right(name, glob, noCase);
    } else if EndsInTwoStars(glob) {
      LiteralsMatch(glob, noCase);
      FoundIsLongEnough(Literals(glob), glob, noCase);
      assert !Right(Literals(glob), glob, noCase);
    } else {
      forall name: string ensures Right(name, glob, noCase) {
        FoundIsLanguage(name, glob, noCase);
      }
    }
  }

  // A question mark can take the matcher past the end of the name.
  lemma QuestionMarkReadsOn()
    ensures Found("a", "a?", false) == ReadsPastEnd && !InLanguage("a", "a?", false)
  {
    assert "a"[1..] == "" && "a?"[1..] == "?";
    LanguageChar("a", "a?", false);
    LanguageChar("", "?", false);
  }

  // MatchesGlob, on the name from n on and the pattern from g on.
  method MatchesGlob(name: string, n0: nat, glob: string, g0: nat, noCase: bool) returns (r: Outcome)
    requires n0 <= |name| && g0 <= |glob|
    ensures r == Found(name[n0..], glob[g0..], noCase)
    decreases |glob| - g0
  {
    var n, g := n0, g0;
    while g < |glob|
      invariant n0 <= n <= |name| && g0 <= g <= |glob|
      invariant Found(name[n0..], glob[g0..], noCase) == Found(name[n..], glob[g..], noCase)
    {
      if glob[g] == '*' {
        while n < |name|
          invariant n <= |name|
          invariant Found(name[n0..], glob[g0..], noCase) == TryAll(name[n..], glob[g..], noCase)
        {
          r := MatchesGlob(name, n, glob, g + 1, noCase);
          assert glob[g..][1..] == glob[g + 1..] && name[n..][1..] == name[n + 1..];
          if r != No {
            return;
          }
          n := n + 1;
        }
        return if g + 1 == |glob| then Yes else No;
      }
      if n == |name| {
        return if glob[g] == '?' then ReadsPastEnd else No;
      }
      if glob[g] != '?' && Fold(name[n], noCase) != Fold(glob[g], noCase) {
        return No;
      }
      assert glob[g..][1..] == glob[g + 1..] && name[n..][1..] == name[n + 1..];
      n, g := n + 1, g + 1;
    }
    return if n == |name| then Yes else No;
  }

  // The first outcome other than No for a list of patterns.
  function FirstFound(name: string, globs: seq<string>, noCase: bool): Outcome {
    if globs == [] then No
    else if Found(name, globs[0], noCase) != No then Found(name, globs[0], noCase)
    else FirstFound(name, globs[1..], noCase)
  }

  // For patterns that are matched right, a name is found exactly if it is in one of their languages.
  lemma {:induction false} FirstFoundIsUnion(name: string, globs: seq<string>, noCase: bool)
    requires forall g | g in globs :: Right(name, g, noCase)
    ensures FirstFound(name, globs, noCase) != ReadsPastEnd
    ensures FirstFound(name, globs, noCase) == Yes <==> exists g | g in globs :: InLanguage(name, g, noCase)
  {
    hide InLanguage, Found;
    if globs != [] {
      assert Right(name, globs[0], noCase);
      FirstFoundIsUnion(name, globs[1..], noCase);
      assert forall g | g in globs :: g == globs[0] || g in globs[1..];
    }
  }

  // MatchesAnyGlob
  method MatchesAnyGlob(name: string, globs: seq<string>, noCase: bool) returns (r: Outcome)
    ensures r == FirstFound(name, globs, noCase)
  {
    hide Found;
    var i := 0;
    while i < |globs|
      invariant 0 <= i <= |globs| && FirstFound(name, globs, noCase) == FirstFound(name, globs[i..], noCase)
    {
      assert name[0..] == name && globs[i][0..] == globs[i] && globs[i..][1..] == globs[i + 1..];
      r := MatchesGlob(name, 0, globs[i], 0, noCase);
      if r != No {
        return;
      }
      i := i + 1;
    }
    return No;
  }

  // ---------- Sorting ----------

  // strcmp, or strcasecmp: whether a comes before b.
  predicate Before(a: string, b: string, noCase: bool) {
    b != "" && (a == "" || Fold(a[0], noCase) < Fold(b[0], noCase)
                || (Fold(a[0], noCase) == Fold(b[0], noCase) && Before(a[1..], b[1..], noCase)))
  }

  // The order of dictionaries: what counts is the first place where the strings differ.
  lemma {:induction false} BeforeIsLexicographic(a: string, b: string, noCase: bool)
    ensures Before(a, b, noCase) <==> exists k: nat :: DiffersAt(a, b, noCase, k)
  {
    if b == "" || a == "" || Fold(a[0], noCase) != Fold(b[0], noCase) {
      if Before(a, b, noCase) { assert DiffersAt(a, b, noCase, 0); }
    } else {
      BeforeIsLexicographic(a[1..], b[1..], noCase);
      if k: nat :| DiffersAt(a[1..], b[1..], noCase, k) {
        forall i | 0 <= i < k + 1
          ensures Fold(a[i], noCase) == Fold(b[i], noCase)
        {
          if i > 0 { assert a[i] == a[1..][i - 1] && b[i] == b[1..][i - 1]; }
        }
        assert b[k + 1] == b[1..][k];
        assert DiffersAt(a, b, noCase, k + 1);
      }
      if k: nat :| DiffersAt(a, b, noCase, k) {
        assert k > 0;
        assert DiffersAt(a[1..], b[1..], noCase, k - 1);
      }
    }
  }

  // Up to k the strings are the same; there the first one ends, or has the lower character.
  ghost predicate DiffersAt(a: string, b: string, noCase: bool, k: nat) {
    && k <= |a| && k < |b| && (forall i | 0 <= i < k :: Fold(a[i], noCase) == Fold(b[i], noCase))
    && (k == |a| || Fold(a[k], noCase) < Fold(b[k], noCase))
  }

  // What is not out of order stays so along a chain.
  lemma {:induction false} NotAfterTransitive(a: string, b: string, c: string, noCase: bool)
    requires !Before(b, a, noCase) && !Before(c, b, noCase)
    ensures !Before(c, a, noCase)
  {
    if a != "" && b != "" && c != "" {
      if Fold(a[0], noCase) == Fold(b[0], noCase) == Fold(c[0], noCase) {
        NotAfterTransitive(a[1..], b[1..], c[1..], noCase);
      }
    }
  }

  lemma {:induction false} BeforeAsymmetric(a: string, b: string, noCase: bool)
    requires Before(a, b, noCase)
    ensures !Before(b, a, noCase)
  {
    if a != "" && Fold(a[0], noCase) == Fold(b[0], noCase) {
      BeforeAsymmetric(a[1..], b[1..], noCase);
    }
  }

  ghost predicate Sorted(s: seq<string>, noCase: bool) {
    forall i, j | 0 <= i < j < |s| :: !Before(s[j], s[i], noCase)
  }

  // Everything left of the pivot comes before it, nothing right of it does.
  ghost predicate Split(left: seq<string>, pivot: string, right: seq<string>, noCase: bool) {
    (forall x | x in left :: Before(x, pivot, noCase)) && (forall x | x in right :: !Before(x, pivot, noCase))
  }

  lemma SplitSorted(left: seq<string>, pivot: string, right: seq<string>, noCase: bool)
    requires Sorted(left, noCase) && Sorted(right, noCase) && Split(left, pivot, right, noCase)
    ensures Sorted(left + [pivot] + right, noCase)
  {
    var s := left + [pivot] + right;
    var m := |left|;
    forall i, j | 0 <= i < j < |s| ensures !Before(s[j], s[i], noCase) {
      if i < m {
        assert s[i] == left[i] && Before(left[i], pivot, noCase);
        BeforeAsymmetric(left[i], pivot, noCase);
        if j > m {
          assert s[j] == right[j - m - 1];
          NotAfterTransitive(s[i], pivot, s[j], noCase);
        }
      } else if i == m {
        assert s[j] == right[j - m - 1];
      }
    }
  }

  lemma SplitPermuted(left: seq<string>, pivot: string, right: seq<string>, l: seq<string>, r: seq<string>,
      noCase: bool)
    requires Split(left, pivot, right, noCase) && Permuted(left, l) && Permuted(right, r)
    ensures Split(l, pivot, r, noCase)
  {
    forall x | x in l ensures x in left {
      assert x in multiset(l);
    }
    forall x | x in r ensures x in right {
      assert x in multiset(r);
    }
  }

  ghost predicate Permuted(s: seq<string>, t: seq<string>) {
    multiset(s) == multiset(t)
  }

  lemma SwapPermutes(s: seq<string>, t: seq<string>, i: nat, j: nat)
    requires Permuted(s, t) && i < |t| && j < |t|
    ensures Permuted(s, t[i := t[j]][j := t[i]])
  {}

  // Exchanges two names of a segment.
  method Swap(a: array<string>, i: nat, j: nat, lo: nat, hi: nat, ghost start: seq<string>)
    requires lo <= i < hi <= a.Length && lo <= j < hi && Permuted(start, a[lo..hi])
    modifies a
    ensures Permuted(start, a[lo..hi]) && a[i] == old(a[j]) && a[j] == old(a[i])
    ensures forall k | 0 <= k < a.Length && k != i && k != j :: a[k] == old(a[k])
  {
    hide Permuted;
    SwapPermutes(start, a[lo..hi], i - lo, j - lo);
    ghost var s := a[lo..hi];
    a[i], a[j] := a[j], a[i];
    assert a[lo..hi] == s[i - lo := s[j - lo]][j - lo := s[i - lo]];
  }

  // The partition of SortFilenames, by the last name of the segment.
  method Partition(a: array<string>, lo: nat, hi: nat, noCase: bool) returns (p: nat)
    requires lo < hi <= a.Length
    modifies a
    ensures lo <= p < hi && Permuted(old(a[lo..hi]), a[lo..hi])
    ensures forall k | lo <= k < p :: Before(a[k], a[p], noCase)
    ensures forall k | p < k < hi :: !Before(a[k], a[p], noCase)
    ensures forall k | 0 <= k < a.Length && !(lo <= k < hi) :: a[k] == old(a[k])
  {
    hide Before, Permuted;
    var pivot := a[hi - 1];
    p := lo;
    var i := lo;
    SamePermuted(a[lo..hi]);
    while i < hi - 1
      invariant lo <= p <= i <= hi - 1 && a[hi - 1] == pivot && Permuted(old(a[lo..hi]), a[lo..hi])
      invariant forall k | lo <= k < p :: Before(a[k], pivot, noCase)
      invariant forall k | p <= k < i :: !Before(a[k], pivot, noCase)
      invariant forall k | 0 <= k < a.Length && !(lo <= k < hi) :: a[k] == old(a[k])
    {
      if Before(a[i], pivot, noCase) {
        Swap(a, i, p, lo, hi, old(a[lo..hi]));
        p := p + 1;
      }
      i := i + 1;
    }
    // filenames[len - 1] = filenames[left_len]; filenames[left_len] = pivot
    Swap(a, hi - 1, p, lo, hi, old(a[lo..hi]));
    PivotNotBefore(pivot, noCase);
  }

  lemma SamePermuted(s: seq<string>)
    ensures Permuted(s, s)
  {}

  lemma {:induction false} PivotNotBefore(pivot: string, noCase: bool)
    ensures !Before(pivot, pivot, noCase)
  {
    if pivot != "" {
      PivotNotBefore(pivot[1..], noCase);
    }
  }

  lemma PermutedParts(was: seq<string>, left: seq<string>, pivot: string, right: seq<string>, l: seq<string>,
      r: seq<string>)
    requires Permuted(was, left + [pivot] + right) && Permuted(left, l) && Permuted(right, r)
    ensures Permuted(was, l + [pivot] + r)
  {}

  // A segment is its parts.
  lemma Parts(s: seq<string>, lo: nat, p: nat, hi: nat)
    requires lo <= p < hi <= |s|
    ensures s[lo..hi] == s[lo..p] + [s[p]] + s[p + 1..hi]
  {}

  lemma SameSegment(s: seq<string>, t: seq<string>, lo: nat, hi: nat)
    requires |s| == |t| && lo <= hi <= |s| && forall k | lo <= k < hi :: s[k] == t[k]
    ensures s[lo..hi] == t[lo..hi]
  {}

  // What the sorting of both sides of the pivot leads to.
  lemma SidesSorted(was: seq<string>, s: seq<string>, t: seq<string>, u: seq<string>, lo: nat, p: nat, hi: nat,
      noCase: bool)
    requires lo <= p < hi <= |s| == |t| == |u| == |was|
    requires Permuted(was[lo..hi], s[lo..hi]) && Split(s[lo..p], s[p], s[p + 1..hi], noCase)
    requires Sorted(t[lo..p], noCase) && Permuted(s[lo..p], t[lo..p])
        && (forall k | 0 <= k < |s| && !(lo <= k < p) :: t[k] == s[k])
    requires Sorted(u[p + 1..hi], noCase) && Permuted(t[p + 1..hi], u[p + 1..hi])
    requires forall k | 0 <= k < |s| && !(p + 1 <= k < hi) :: u[k] == t[k]
    ensures Sorted(u[lo..hi], noCase) && Permuted(was[lo..hi], u[lo..hi])
  {
    hide Sorted, Split, Permuted;
    Parts(s, lo, p, hi);
    Parts(u, lo, p, hi);
    SameSegment(s, t, p + 1, hi);
    SameSegment(t, u, lo, p);
    PermutedParts(was[lo..hi], s[lo..p], s[p], s[p + 1..hi], u[lo..p], u[p + 1..hi]);
    SplitPermuted(s[lo..p], s[p], s[p + 1..hi], u[lo..p], u[p + 1..hi], noCase);
    SplitSorted(u[lo..p], s[p], u[p + 1..hi], noCase);
  }

  // SortFilenames, on a segment.
  method SortFilenames(a: array<string>, lo: nat, hi: nat, noCase: bool)
    requires lo <= hi <= a.Length
    modifies a
    ensures Sorted(a[..][lo..hi], noCase) && Permuted(old(a[..])[lo..hi], a[..][lo..hi])
    ensures forall k | 0 <= k < a.Length && !(lo <= k < hi) :: a[k] == old(a[k])
    decreases hi - lo
  {
    hide Sorted, Split, Before, Permuted;
    ghost var was := a[..];
    if hi - lo <= 1 {
      ShortSorted(was[lo..hi], noCase);
      SamePermuted(was[lo..hi]);
      return;
    }
    var p := Partition(a, lo, hi, noCase);
    ghost var s := a[..];
    assert was[lo..hi] == old(a[lo..hi]) && s[lo..hi] == a[lo..hi];
    SplitFrom(s[lo..p], s[p], s[p + 1..hi], noCase);
    SortFilenames(a, lo, p, noCase);
    ghost var t := a[..];
    SortFilenames(a, p + 1, hi, noCase);
    SidesSorted(was, s, t, a[..], lo, p, hi, noCase);
  }

  lemma SplitFrom(left: seq<string>, pivot: string, right: seq<string>, noCase: bool)
    requires forall k | 0 <= k < |left| :: Before(left[k], pivot, noCase)
    requires forall k | 0 <= k < |right| :: !Before(right[k], pivot, noCase)
    ensures Split(left, pivot, right, noCase)
  {}

  lemma ShortSorted(s: seq<string>, noCase: bool)
    requires |s| <= 1
    ensures Sorted(s, noCase)
  {}
}
