/** What the two patterns, the substitution and the brace count mean, told by where the
    characters stand. */
module NormalizerPatterns {
  import opened Normalizer
  import opened NormalizerLine

  predicate AllSpace(s: string) {
    forall i :: 0 <= i < |s| ==> IsSpace(s[i])
  }

  predicate AllWordChars(s: string) {
    forall i :: 0 <= i < |s| ==> IsWord(s[i])
  }

  // ---------------------------------------------------------------- the patterns

  /** return, spaces or none, a brace. */
  ghost predicate ReadsBare(s: string) {
    exists sp: string, rest: string :: AllSpace(sp) && s == RETURN + (sp + ("{" + rest))
  }

  /** A name as in C. */
  predicate CName(s: string) {
    s != "" && AllWordChars(s) && !('0' <= s[0] <= '9')
  }

  /** The type name, spaces, a C name, spaces or none, a parenthesis. */
  ghost predicate ReadsFunc(s: string) {
    exists sp: string, u: string :: sp != "" && AllSpace(sp) && ReadsName(u) && s == TYPE_NAME + (sp + u)
  }

  ghost predicate ReadsName(u: string) {
    exists name: string, sp: string, rest: string ::
      CName(name) && AllSpace(sp) && u == name + (sp + ("(" + rest))
  }

  lemma {:induction false} SpacesOf(sp: string, t: string)
    requires AllSpace(sp) && (t == "" || !IsSpace(t[0]))
    ensures SpaceLen(sp + t) == |sp| && AfterSpace(sp + t) == t
    decreases |sp|
  {
    if sp == "" {
      assert sp + t == t;
      SpaceNone(t);
    } else {
      assert (sp + t)[0] == sp[0] && (sp + t)[1..] == sp[1..] + t;
      SpaceMore(sp + t);
      SpacesOf(sp[1..], t);
    }
  }

  /** A string cut into its leading spaces and the rest. */
  lemma SpaceCut(s: string)
    ensures s == s[..SpaceLen(s)] + AfterSpace(s) && AllSpace(s[..SpaceLen(s)])
  {
  }

  lemma NotWordAfter(sp: string, c: char, rest: string)
    requires AllSpace(sp) && !IsWord(c)
    ensures sp + ([c] + rest) != "" && !IsWord((sp + ([c] + rest))[0])
  {
    var t := sp + ([c] + rest);
    if sp != "" {
      assert t[0] == sp[0] && IsSpace(sp[0]);
    } else {
      assert t == [c] + rest;
    }
  }

  lemma BareIsRead(s: string)
    requires IsBareReturn(s)
    ensures ReadsBare(s)
  {
    var t := AfterWord(s);
    var u := AfterSpace(t);
    SpaceCut(t);
    WordCut(s);
    assert u == "{" + u[1..];
    assert s == RETURN + (t[..SpaceLen(t)] + ("{" + u[1..]));
  }

  lemma ReadIsBare(sp: string, rest: string)
    requires AllSpace(sp)
    ensures IsBareReturn(RETURN + (sp + ("{" + rest)))
  {
    AllWord();
    NotWordAfter(sp, '{', rest);
    assert !IsSpace('{') && ("{" + rest)[0] == '{';
    hide IsSpace, IsWord, Word, AfterWord, WordLen, SpaceLen, AfterSpace, AllSpace;
    WordOf(RETURN, sp + ("{" + rest));
    SpacesOf(sp, "{" + rest);
  }

  lemma BareReturnIff(s: string)
    ensures IsBareReturn(s) <==> ReadsBare(s)
  {
    if IsBareReturn(s) { BareIsRead(s); }
    hide IsBareReturn;
    if ReadsBare(s) {
      var sp: string, rest: string :| AllSpace(sp) && s == RETURN + (sp + ("{" + rest));
      ReadIsBare(sp, rest);
    }
  }

  lemma NameIff(u: string)
    ensures NameThenParen(u) <==> ReadsName(u)
  {
    if NameThenParen(u) {
      var t := AfterWord(u);
      SpaceCut(t);
      var v := AfterSpace(t);
      assert v == "(" + v[1..];
      WordCut(u);
      assert CName(Word(u)) && u == Word(u) + (t[..SpaceLen(t)] + ("(" + v[1..]));
    }
    if ReadsName(u) {
      var name: string, sp: string, rest: string :| CName(name) && AllSpace(sp) && u == name + (sp + ("(" + rest));
      NotWordAfter(sp, '(', rest);
      WordOf(name, sp + ("(" + rest));
      SpacesOf(sp, "(" + rest);
      assert u[0] == name[0];
    }
  }

  lemma FuncStartIff(s: string)
    ensures IsFuncStart(s) <==> ReadsFunc(s)
  {
    if IsFuncStart(s) {
      var t := AfterWord(s);
      SpaceCut(t);
      WordCut(s);
      NameIff(AfterSpace(t));
      assert s == TYPE_NAME + (t[..SpaceLen(t)] + AfterSpace(t));
    }
    if ReadsFunc(s) {
      var sp: string, u: string :| sp != "" && AllSpace(sp) && ReadsName(u) && s == TYPE_NAME + (sp + u);
      NameIff(u);
      NameStarts(u);
      AllWord();
      assert (sp + u)[0] == sp[0] && IsSpace(sp[0]);
      WordOf(TYPE_NAME, sp + u);
      SpacesOf(sp, u);
    }
  }

  lemma NameStarts(u: string)
    requires ReadsName(u)
    ensures u != "" && !IsSpace(u[0])
  {
    var name: string, sp: string, rest: string :| CName(name) && AllSpace(sp) && u == name + (sp + ("(" + rest));
    assert u[0] == name[0] && IsWord(name[0]);
  }

  /** A word boundary before position i, prev being what stands before the line. */
  predicate Boundary(w: WordClass, prev: bool, s: string, i: nat)
    requires i <= |s|
  {
    if i == 0 then !prev else !w(s[i - 1])
  }

  /** The search finds a function's head exactly if one stands somewhere at a boundary. */
  lemma {:induction false} HasFuncStartIff(w: WordClass, prev: bool, s: string)
    ensures HasFuncStart(w, prev, s) <==>
              exists i :: 0 <= i < |s| && Boundary(w, prev, s, i) && ReadsFunc(s[i..])
    decreases |s|
  {
    if s != "" {
      FuncStartIff(s);
      HasFuncStartIff(w, w(s[0]), s[1..]);
      assert s[0..] == s;
      hide IsFuncStart, ReadsFunc;
      forall i | 0 < i < |s|
        ensures Boundary(w, prev, s, i) == Boundary(w, w(s[0]), s[1..], i - 1) && s[i..] == s[1..][i - 1..]
      {
      }
    }
  }

  // ---------------------------------------------------------------- the substitution

  /** gaps[0] + joints[0] + gaps[1] + ... + the last gap. */
  function Weave(gaps: seq<string>, joints: seq<string>): string
    requires |gaps| == |joints| + 1
    decreases |joints|
  {
    if joints == [] then gaps[0] else gaps[0] + (joints[0] + Weave(gaps[1..], joints[1..]))
  }

  /** Bare returns with these spaces, and typed ones. */
  function Bares(sps: seq<string>): (js: seq<string>)
    ensures |js| == |sps|
    decreases |sps|
  {
    if sps == [] then [] else [RETURN + (sps[0] + "{")] + Bares(sps[1..])
  }

  function Typeds(n: nat): (js: seq<string>)
    ensures |js| == n
  {
    if n == 0 then [] else [RETURN + TYPED] + Typeds(n - 1)
  }

  lemma WeaveFirst(gap: string, joint: string, gaps: seq<string>, joints: seq<string>)
    requires |gaps| == |joints| + 1
    ensures Weave([gap] + gaps, [joint] + joints) == gap + (joint + Weave(gaps, joints))
  {
    assert ([gap] + gaps)[1..] == gaps && ([joint] + joints)[1..] == joints;
  }

  lemma WeaveLonger(c: char, gaps: seq<string>, joints: seq<string>)
    requires |gaps| == |joints| + 1
    ensures Weave([[c] + gaps[0]] + gaps[1..], joints) == [c] + Weave(gaps, joints)
  {
    assert ([[c] + gaps[0]] + gaps[1..])[1..] == gaps[1..];
    if joints != [] {
      assert [c] + gaps[0] + (joints[0] + Weave(gaps[1..], joints[1..]))
          == [c] + (gaps[0] + (joints[0] + Weave(gaps[1..], joints[1..])));
    }
  }

  lemma Joined(s: string, sp: string, u: string)
    requires u != "" && u[0] == '{' && s == RETURN + (sp + u)
    ensures s == RETURN + (sp + "{") + u[1..]
  {
    assert u == "{" + u[1..];
  }

  lemma BareParts(s: string) returns (sp: string)
    requires IsBareReturn(s)
    ensures AllSpace(sp) && s == RETURN + (sp + "{") + AfterBrace(s)
  {
    var t := AfterWord(s);
    var u := AfterSpace(t);
    SpaceCut(t);
    WordCut(s);
    assert u != "" && u[0] == '{' && Word(s) == RETURN;
    sp := t[..SpaceLen(t)];
    hide Word, AfterWord, AfterSpace, SpaceLen, WordLen, IsSpace, IsWord;
    Joined(s, sp, u);
  }

  lemma WeaveTyped(rest: string, gaps: seq<string>, sps: seq<string>, sp: string)
    requires |gaps| == |sps| + 1 && rest == Weave(gaps, Bares(sps))
    ensures Weave([""] + gaps, Bares([sp] + sps)) == RETURN + (sp + "{") + rest
    ensures Weave([""] + gaps, Typeds(|sps| + 1)) == RETURN + TYPED + Weave(gaps, Typeds(|sps|))
  {
    assert ([sp] + sps)[1..] == sps;
    WeaveFirst("", RETURN + (sp + "{"), gaps, Bares(sps));
    WeaveFirst("", RETURN + TYPED, gaps, Typeds(|sps|));
    hide Weave;
    assert forall x: string :: "" + x == x;
  }

  lemma SubMatch(w: WordClass, s: string)
    requires IsBareReturn(s)
    ensures Sub(w, false, s) == RETURN + TYPED + Sub(w, false, AfterBrace(s))
    ensures Bare(w, false, s) == 1 + Bare(w, false, AfterBrace(s)) && |AfterBrace(s)| < |s|
  {
    BareReads(s);
  }

  lemma SubNoMatch(w: WordClass, prev: bool, s: string)
    requires s != "" && (prev || !IsBareReturn(s))
    ensures Sub(w, prev, s) == [s[0]] + Sub(w, w(s[0]), s[1..])
    ensures Bare(w, prev, s) == Bare(w, w(s[0]), s[1..])
  {
    hide IsBareReturn;
  }

  predicate AllSpaces(sps: seq<string>) {
    forall i :: 0 <= i < |sps| ==> AllSpace(sps[i])
  }

  lemma SpacesMore(sp: string, sps: seq<string>)
    requires AllSpace(sp) && AllSpaces(sps)
    ensures AllSpaces([sp] + sps)
  {
    hide AllSpace;
  }

  lemma HeadTail(s: string)
    requires s != ""
    ensures s == [s[0]] + s[1..]
  {
  }

  /** The substitution finds some bare returns, as many as it counts, puts the typed one in
      the place of each, and leaves everything between them. */
  lemma {:induction false} SubWeaves(w: WordClass, prev: bool, s: string) returns (gaps: seq<string>, sps: seq<string>)
    ensures |sps| == Bare(w, prev, s) && |gaps| == |sps| + 1
    ensures AllSpaces(sps)
    ensures s == Weave(gaps, Bares(sps)) && Sub(w, prev, s) == Weave(gaps, Typeds(|sps|))
    decreases |s|
  {
    if s == "" {
      gaps, sps := [""], [];
      assert AllSpaces(sps);
    } else {
      hide IsBareReturn, Weave, Bares, Typeds, AllSpace, AllSpaces, Sub, Bare;
      if !prev && IsBareReturn(s) {
        var rest := AfterBrace(s);
        SubMatch(w, s);
        var sp := BareParts(s);
        var gaps', sps' := SubWeaves(w, false, rest);
        gaps, sps := [""] + gaps', [sp] + sps';
        WeaveTyped(rest, gaps', sps', sp);
        SpacesMore(sp, sps');
      } else {
        SubNoMatch(w, prev, s);
        var gaps';
        gaps', sps := SubWeaves(w, w(s[0]), s[1..]);
        gaps := [[s[0]] + gaps'[0]] + gaps'[1..];
        WeaveLonger(s[0], gaps', Bares(sps));
        WeaveLonger(s[0], gaps', Typeds(|sps|));
        HeadTail(s);
      }
    }
  }

  /** Nothing is replaced exactly if no bare return stands anywhere at a boundary; after a
      substitution that is so. */
  lemma {:induction false} BareNoneIff(w: WordClass, prev: bool, s: string)
    ensures Bare(w, prev, s) == 0 <==>
              !exists i :: 0 <= i < |s| && Boundary(w, prev, s, i) && ReadsBare(s[i..])
    decreases |s|
  {
    if s != "" {
      BareReturnIff(s);
      BareNoneIff(w, w(s[0]), s[1..]);
      assert s[0..] == s;
      hide IsBareReturn, ReadsBare;
      forall i | 0 < i < |s|
        ensures Boundary(w, prev, s, i) == Boundary(w, w(s[0]), s[1..], i - 1) && s[i..] == s[1..][i - 1..]
      {
      }
    }
  }

  // ---------------------------------------------------------------- the brace count

  /** No quote, and no slash that could begin a comment with what follows. */
  predicate Plain(s: string) {
    forall i :: 0 <= i < |s| ==> s[i] != '"' && s[i] != '\'' && s[i] != '/'
  }

  function Braces(s: string): int
    decreases |s|
  {
    if s == "" then 0 else (if s[0] == '{' then 1 else if s[0] == '}' then -1 else 0) + Braces(s[1..])
  }

  /** Plain code counts its braces and lets the rest count on. */
  lemma {:induction false} PlainCounts(s: string, t: string)
    requires Plain(s)
    ensures Delta(Code, s + t) == Braces(s) + Delta(Code, t)
    decreases |s|
  {
    if s == "" {
      assert s + t == t;
    } else {
      assert (s + t)[0] == s[0] && (s + t)[1..] == s[1..] + t;
      PlainCounts(s[1..], t);
    }
  }

  /** A single slash counts nothing. */
  lemma SlashCountsNot(t: string)
    requires !Normalizer.Starts(t, '/')
    ensures Delta(Code, "/" + t) == Delta(Code, t)
  {
    assert ("/" + t)[1..] == t;
  }

  /** A comment counts nothing, to the end of the line. */
  lemma CommentCountsNot(t: string)
    ensures Delta(Code, "//" + t) == 0
  {
    assert ("//" + t)[1..] == "/" + t;
  }

  /** The body of a literal between quotes q: no unescaped q, no trailing escape. */
  predicate Quoted(q: char, s: string)
    decreases |s|
  {
    if s == "" then true
    else if s[0] == '\\' then |s| >= 2 && Quoted(q, s[2..])
    else s[0] != q && Quoted(q, s[1..])
  }

  function Inside(q: char): Lexer {
    if q == '"' then Str else Chr
  }

  lemma {:induction false} QuotedSkips(q: char, s: string, t: string)
    requires (q == '"' || q == '\'') && Quoted(q, s)
    ensures Delta(Inside(q), s + ([q] + t)) == Delta(Code, t)
    decreases |s|
  {
    var u := s + ([q] + t);
    if s == "" {
      assert u == [q] + t && u[1..] == t;
    } else if s[0] == '\\' {
      assert u[0] == s[0] && u[1..][0] == s[1] && u[1..][1..] == s[2..] + ([q] + t);
      QuotedSkips(q, s[2..], t);
    } else {
      assert u[0] == s[0] && u[1..] == s[1..] + ([q] + t);
      QuotedSkips(q, s[1..], t);
    }
  }

  /** A string or character literal counts nothing, whatever braces and slashes are in it. */
  lemma LiteralCountsNot(q: char, s: string, t: string)
    requires (q == '"' || q == '\'') && Quoted(q, s)
    ensures Delta(Code, [q] + (s + ([q] + t))) == Delta(Code, t)
  {
    var u := [q] + (s + ([q] + t));
    assert u[0] == q && u[1..] == s + ([q] + t);
    QuotedSkips(q, s, t);
  }

  /** And so does one that the line does not close. */
  lemma {:induction false} UnclosedCountsNot(q: char, l: Lexer, s: string)
    requires (q == '"' || q == '\'') && Quoted(q, s) && l == Inside(q)
    ensures Delta(l, s) == 0 && Delta(Code, [q] + s) == 0
    decreases |s|
  {
    assert ([q] + s)[0] == q && ([q] + s)[1..] == s;
    if s != "" {
      if s[0] == '\\' {
        assert s[1..][1..] == s[2..];
        UnclosedCountsNot(q, l, s[2..]);
      } else {
        UnclosedCountsNot(q, l, s[1..]);
      }
    }
  }
}
