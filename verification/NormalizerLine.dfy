/** What rewriting a line leaves as it was: a second rewriting, the search for a function,
    the brace count, the characters tested and the line boundaries. */
module NormalizerLine {
  import opened Normalizer

  // ---------------------------------------------------------------- a second pass

  lemma TypedNotBare(x: string)
    ensures !IsBareReturn(RETURN + TYPED + x)
    ensures !IsBareReturn(TYPE_NAME + ("{" + x))
    ensures !IsFuncStart(RETURN + TYPED + x) && !IsFuncStart(TYPE_NAME + ("{" + x))
  {
    TypedReads(x);
    hide Word, AfterWord, WordLen, AfterSpace, SpaceLen;
    assert RETURN != TYPE_NAME;
    BraceNotSpace(x);
  }

  lemma BraceNotSpace(x: string)
    ensures SpaceLen("{" + x) == 0
  {
  }

  /** Rewriting leaves a typed return alone. */
  lemma SubTyped(w: WordClass, x: string)
    ensures Sub(w, false, RETURN + TYPED + x) == RETURN + TYPED + Sub(w, false, x)
    ensures Bare(w, false, RETURN + TYPED + x) == Bare(w, false, x)
  {
    var r, name := RETURN + TYPED + x, TYPE_NAME + ("{" + x);
    TypedReads(x);
    TypedNotBare(x);
    AllWord();
    hide Sub, Bare, Word, AfterWord, AfterSpace, SpaceLen, IsBareReturn, IsFuncStart;
    SubWord(w, false, r);
    WordCut(Sub(w, false, r));
    BareWord(w, false, r);
    NoMatch(w, " " + name);
    Skip(w, true, " " + name);
    assert (" " + name)[1..] == name;
    SubWord(w, false, name);
    WordCut(Sub(w, false, name));
    BareWord(w, false, name);
    WordOf(RETURN, " " + name);
    WordOf(TYPE_NAME, "{" + x);
    hide WordLen, IsWord;
    NoMatch(w, "{" + x);
    Skip(w, true, "{" + x);
    assert ("{" + x)[1..] == x;
    Glue(RETURN, " ", TYPE_NAME, "{", Sub(w, false, x));
  }

  /** Substituting twice is substituting once, and the second time nothing matches. */
  lemma {:induction false} SubIdempotent(w: WordClass, prev: bool, s: string)
    ensures Sub(w, prev, Sub(w, prev, s)) == Sub(w, prev, s) && Bare(w, prev, Sub(w, prev, s)) == 0
    decreases |s|
  {
    if s == "" {
    } else if !prev && IsBareReturn(s) {
      SubTyped(w, Sub(w, false, AfterBrace(s)));
      SubIdempotent(w, false, AfterBrace(s));
    } else {
      SubKeepsBare(w, prev, s);
      SubFirst(w, prev, s);
      SubCopies(w, prev, s);
      var r := Sub(w, prev, s);
      SubCopies(w, prev, r);
      SubIdempotent(w, w(s[0]), s[1..]);
      hide IsBareReturn, IsWord;
    }
  }

  // ---------------------------------------------------------------- the tests of a line

  /** A bare return read piece by piece. */
  lemma BareReads(s: string)
    requires IsBareReturn(s)
    ensures Word(s) == RETURN && AfterSpace(AfterWord(s)) == "{" + AfterBrace(s)
    ensures s == RETURN + AfterWord(s) && WordLen(s) > 0
    ensures !IsFuncStart(s)
    ensures |AfterBrace(s)| < |s|
  {
    var t := AfterSpace(AfterWord(s));
    assert t == [t[0]] + t[1..];
    assert RETURN != TYPE_NAME;
  }

  lemma FuncTyped(w: WordClass, x: string)
    ensures HasFuncStart(w, false, RETURN + TYPED + x) == HasFuncStart(w, false, x)
  {
    var r, name := RETURN + TYPED + x, TYPE_NAME + ("{" + x);
    TypedReads(x);
    TypedNotBare(x);
    AllWord();
    WordOf(RETURN, " " + name);
    WordOf(TYPE_NAME, "{" + x);
    hide HasFuncStart, Word, AfterWord, AfterSpace, SpaceLen, WordLen, IsWord, IsBareReturn, IsFuncStart;
    FuncWord(w, false, r);
    NoMatch(w, " " + name);
    Skip(w, true, " " + name);
    assert (" " + name)[1..] == name;
    FuncWord(w, false, name);
    NoMatch(w, "{" + x);
    Skip(w, true, "{" + x);
    assert ("{" + x)[1..] == x;
  }

  lemma FuncBare(w: WordClass, s: string)
    requires IsBareReturn(s)
    ensures HasFuncStart(w, false, s) == HasFuncStart(w, false, AfterBrace(s))
  {
    BareReads(s);
    var rest := AfterBrace(s);
    hide HasFuncStart, Word, AfterWord, AfterSpace, SpaceLen, WordLen, IsWord, IsBareReturn, IsFuncStart;
    FuncWord(w, false, s);
    FuncSpace(w, true, AfterWord(s));
    NoMatch(w, "{" + rest);
    Skip(w, SpaceLen(AfterWord(s)) == 0, "{" + rest);
    assert ("{" + rest)[1..] == rest;
  }

  lemma {:induction false} SubKeepsSearch(w: WordClass, prev: bool, s: string)
    ensures HasFuncStart(w, prev, Sub(w, prev, s)) == HasFuncStart(w, prev, s)
    decreases |s|
  {
    if s == "" {
    } else if !prev && IsBareReturn(s) {
      var rest := AfterBrace(s);
      FuncTyped(w, Sub(w, false, rest));
      FuncBare(w, s);
      BareReads(s);
      SubKeepsSearch(w, false, rest);
      hide HasFuncStart, IsBareReturn;
    } else {
      SubKeepsFuncStart(w, prev, s);
      SubFirst(w, prev, s);
      SubCopies(w, prev, s);
      SubKeepsSearch(w, w(s[0]), s[1..]);
      hide IsFuncStart, IsBareReturn, IsWord, Sub;
    }
  }

  predicate Neutral(c: char) {
    c !in {'"', '\'', '\\', '/', '{', '}'}
  }

  function Settled(l: Lexer): Lexer {
    match l
    case StrEscape => Str
    case ChrEscape => Chr
    case _ => l
  }

  lemma {:induction false} DeltaNeutral(l: Lexer, t: string, u: string)
    requires t != "" && forall i :: 0 <= i < |t| ==> Neutral(t[i])
    ensures Delta(l, t + u) == Delta(Settled(l), u)
    decreases |t|
  {
    assert (t + u)[0] == t[0] && (t + u)[1..] == t[1..] + u;
    assert Neutral(t[0]);
    if |t| > 1 {
      DeltaNeutral(Settled(l), t[1..], u);
    } else {
      assert t[1..] + u == u;
    }
  }

  lemma DeltaBrace(l: Lexer, x: string, y: string)
    requires forall k: Lexer :: Delta(k, x) == Delta(k, y)
    ensures Delta(l, "{" + x) == Delta(l, "{" + y)
  {
    assert ("{" + x)[1..] == x && ("{" + y)[1..] == y;
  }

  lemma BareNeutral(s: string)
    requires IsBareReturn(s)
    ensures var n := |s| - |AfterBrace(s)| - 1;
            && 0 < n < |s| && s == s[..n] + ("{" + AfterBrace(s))
            && forall i :: 0 <= i < n ==> Neutral(s[i])
  {
    var t := AfterWord(s);
    var n := WordLen(s) + SpaceLen(t);
    assert s[n..] == AfterSpace(t) == [AfterSpace(t)[0]] + AfterBrace(s);
    forall i | 0 <= i < n ensures Neutral(s[i]) {
      if i < WordLen(s) {
        assert IsWord(s[i]);
      } else {
        assert IsSpace(t[i - WordLen(s)]);
      }
    }
  }

  lemma TypedNeutral()
    ensures forall i :: 0 <= i < |RETURN + (" " + TYPE_NAME)| ==> Neutral((RETURN + (" " + TYPE_NAME))[i])
  {
  }

  lemma TypedCut(x: string)
    ensures RETURN + TYPED + x == RETURN + (" " + TYPE_NAME) + ("{" + x)
  {
  }

  /** Rewriting leaves the brace count of a line alone, in whatever lexical state. */
  lemma {:induction false} SubKeepsDelta(w: WordClass, prev: bool, s: string, l: Lexer)
    ensures Delta(l, Sub(w, prev, s)) == Delta(l, s)
    decreases |s|, 1
  {
    if s == "" {
    } else if !prev && IsBareReturn(s) {
      DeltaOfTyped(w, s, l);
    } else {
      hide IsBareReturn, IsWord, Sub, Delta;
      SubFirst(w, prev, s);
      SubCopies(w, prev, s);
      SubFirst(w, w(s[0]), s[1..]);
      forall k: Lexer ensures Delta(k, Sub(w, w(s[0]), s[1..])) == Delta(k, s[1..]) {
        SubKeepsDelta(w, w(s[0]), s[1..], k);
      }
      DeltaStep(l, Sub(w, prev, s), s);
    }
  }

  lemma DeltaStep(l: Lexer, r: string, s: string)
    requires r != "" && s != "" && r[0] == s[0]
    requires (r[1..] == "") == (s[1..] == "") && (s[1..] != "" ==> r[1..][0] == s[1..][0])
    requires forall k: Lexer :: Delta(k, r[1..]) == Delta(k, s[1..])
    ensures Delta(l, r) == Delta(l, s)
  {
  }

  lemma {:induction false} DeltaOfTyped(w: WordClass, s: string, l: Lexer)
    requires IsBareReturn(s)
    ensures Delta(l, Sub(w, false, s)) == Delta(l, s)
    decreases |s|, 0
  {
    BareReads(s);
    BareNeutral(s);
    TypedNeutral();
    var rest := AfterBrace(s);
    var n, x := |s| - |rest| - 1, Sub(w, false, rest);
    TypedCut(x);
    forall k: Lexer ensures Delta(k, x) == Delta(k, rest) {
      SubKeepsDelta(w, false, rest, k);
    }
    DeltaNeutral(l, s[..n], "{" + rest);
    DeltaNeutral(l, RETURN + (" " + TYPE_NAME), "{" + x);
    DeltaBrace(Settled(l), x, rest);
    hide Delta, IsBareReturn, Settled;
  }

  lemma {:induction false} SubKeepsChar(w: WordClass, prev: bool, s: string, c: char)
    requires c == ';' || c == '{'
    ensures Has(Sub(w, prev, s), c) == Has(s, c)
    decreases |s|
  {
    if s == "" {
    } else if !prev && IsBareReturn(s) {
      SubKeepsChar(w, false, AfterBrace(s), c);
      CharOfTyped(w, s, c);
    } else {
      SubFirst(w, prev, s);
      SubCopies(w, prev, s);
      SubKeepsChar(w, w(s[0]), s[1..], c);
      var r := Sub(w, prev, s);
      assert r == [r[0]] + r[1..] && s == [s[0]] + s[1..];
    }
  }

  lemma CharAround(t: string, x: string, c: char)
    ensures c in t + ("{" + x) <==> c in t || c == '{' || c in x
  {
    assert c in "{" + x <==> c == '{' || c in x;
  }

  lemma CharOfTyped(w: WordClass, s: string, c: char)
    requires IsBareReturn(s) && (c == ';' || c == '{')
    ensures Has(Sub(w, false, AfterBrace(s)), c) == Has(AfterBrace(s), c) ==> Has(Sub(w, false, s), c) == Has(s, c)
  {
    BareReads(s);
    BareNeutral(s);
    var rest := AfterBrace(s);
    var n, x := |s| - |rest| - 1, Sub(w, false, rest);
    TypedCut(x);
    NoSemicolon(s, n);
    TypedNoSemicolon();
    CharAround(RETURN + (" " + TYPE_NAME), x, c);
    CharAround(s[..n], rest, c);
    hide IsBareReturn, AfterBrace;
  }

  lemma TypedNoSemicolon()
    ensures ';' !in RETURN + (" " + TYPE_NAME)
    ensures forall i :: 0 <= i < |RETURN + TYPED| ==> !IsBreak((RETURN + TYPED)[i])
    ensures (RETURN + TYPED)[|RETURN + TYPED| - 1] == '{'
  {
  }

  lemma NoSemicolon(s: string, n: nat)
    requires IsBareReturn(s) && n == |s| - |AfterBrace(s)| - 1
    ensures ';' !in s[..n]
  {
    var t := AfterWord(s);
    forall i | 0 <= i < n ensures s[i] != ';' {
      if i < WordLen(s) {
        assert IsWord(s[i]);
      } else {
        assert IsSpace(t[i - WordLen(s)]);
      }
    }
  }

  // ---------------------------------------------------------------- line boundaries

  /** A boundary only at the end, if at all. */
  predicate IsLine(s: string) {
    s != "" && forall i :: 0 <= i < |s| - 1 ==> !IsBreak(s[i])
  }

  predicate Ends(s: string) {
    s != "" && IsBreak(s[|s| - 1])
  }

  /** A first part without boundaries, and the rest of the line. */
  lemma LineJoin(t: string, x: string)
    requires t != "" && forall i :: 0 <= i < |t| - 1 ==> !IsBreak(t[i])
    requires x != "" ==> IsLine(x) && !IsBreak(t[|t| - 1])
    ensures IsLine(t + x) && Ends(t + x) == if x == "" then Ends(t) else Ends(x)
  {
    hide IsBreak;
    if x == "" { assert t + x == t; }
  }

  lemma {:induction false} SubKeepsLine(w: WordClass, prev: bool, s: string)
    requires IsLine(s)
    ensures IsLine(Sub(w, prev, s)) && Ends(Sub(w, prev, s)) == Ends(s)
    decreases |s|
  {
    if !prev && IsBareReturn(s) {
      LineOfTyped(s);
      BareReads(s);
      TypedNoSemicolon();
      var rest := AfterBrace(s);
      if rest != "" { SubKeepsLine(w, false, rest); }
      SubFirst(w, false, rest);
      LineJoin(RETURN + TYPED, Sub(w, false, rest));
      hide IsBareReturn, IsLine, IsBreak;
    } else {
      SubFirst(w, prev, s);
      SubCopies(w, prev, s);
      SubFirst(w, w(s[0]), s[1..]);
      if |s| > 1 { SubKeepsLine(w, w(s[0]), s[1..]); }
      LineJoin([s[0]], s[1..]);
      LineJoin([s[0]], Sub(w, w(s[0]), s[1..]));
      assert s == [s[0]] + s[1..];
      hide IsBareReturn, IsWord, IsLine, Ends;
    }
  }

  lemma LineOfTyped(s: string)
    requires IsLine(s) && IsBareReturn(s)
    ensures AfterBrace(s) != "" ==> IsLine(AfterBrace(s)) && Ends(AfterBrace(s)) == Ends(s)
    ensures AfterBrace(s) == "" ==> !Ends(s)
  {
  }
}
