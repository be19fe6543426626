/** The shard normaliser: inside functions that return MkwStateFreeResult2 every bare
    aggregate return gets its type. A text is its lines; a line is scanned character by
    character, `prev` saying whether the character before is a word character to `\b`. */
module Normalizer {
  const TYPE_NAME := "MkwStateFreeResult2"
  const RETURN := "return"
  const TYPED := " " + TYPE_NAME + "{"

  /** The line boundaries of str.splitlines once newlines are translated. */
  predicate IsBreak(c: char) {
    c in {'\n', '\U{0B}', '\U{0C}', '\U{1C}', '\U{1D}', '\U{1E}', '\U{85}', '\U{2028}', '\U{2029}'}
  }

  predicate IsSpace(c: char) {
    || IsBreak(c)
    || c in {' ', '\t', '\r', '\U{1F}', '\U{A0}', '\U{1680}', '\U{202F}', '\U{205F}', '\U{3000}'}
    || '\U{2000}' <= c <= '\U{200A}'
  }

  predicate IsWord(c: char) {
    'a' <= c <= 'z' || 'A' <= c <= 'Z' || '0' <= c <= '9' || c == '_'
  }

  /** What `\b` takes for word characters: some class, Unicode's for one, that has the
      ASCII ones and no space or brace. */
  type WordClass = w: char -> bool | Bounds(w) witness c => IsWord(c)

  ghost predicate Bounds(w: char -> bool) {
    forall c :: Bounded(w, c)
  }

  predicate Bounded(w: char -> bool, c: char) {
    (IsWord(c) ==> w(c)) && (IsSpace(c) || c == '{' ==> !w(c))
  }

  function WordLen(s: string): (n: nat)
    ensures n <= |s|
    ensures forall i :: 0 <= i < n ==> IsWord(s[i])
    ensures n < |s| ==> !IsWord(s[n])
  {
    if s == "" || !IsWord(s[0]) then 0 else 1 + WordLen(s[1..])
  }

  function SpaceLen(s: string): (n: nat)
    ensures n <= |s|
    ensures forall i :: 0 <= i < n ==> IsSpace(s[i])
    ensures n < |s| ==> !IsSpace(s[n])
  {
    if s == "" || !IsSpace(s[0]) then 0 else 1 + SpaceLen(s[1..])
  }

  function Word(s: string): string {
    s[..WordLen(s)]
  }

  function AfterWord(s: string): string {
    s[WordLen(s)..]
  }

  function AfterSpace(s: string): string {
    s[SpaceLen(s)..]
  }

  predicate Starts(s: string, c: char) {
    s != "" && s[0] == c
  }

  /** The pattern `return\s*\{` at a word boundary. */
  predicate IsBareReturn(s: string) {
    Word(s) == RETURN && Starts(AfterSpace(AfterWord(s)), '{')
  }

  /** What follows a bare return's brace. */
  function AfterBrace(s: string): string
    requires IsBareReturn(s)
  {
    AfterSpace(AfterWord(s))[1..]
  }

  /** The pattern `MkwStateFreeResult2\s+[A-Za-z_][A-Za-z0-9_]*\s*\(` at a boundary. */
  predicate IsFuncStart(s: string) {
    && Word(s) == TYPE_NAME
    && SpaceLen(AfterWord(s)) > 0
    && NameThenParen(AfterSpace(AfterWord(s)))
  }

  predicate NameThenParen(u: string) {
    Word(u) != "" && !('0' <= u[0] <= '9') && Starts(AfterSpace(AfterWord(u)), '(')
  }

  /** BARE_RETURN.sub on the rest of a line. */
  function Sub(w: WordClass, prev: bool, s: string): string
    decreases |s|
  {
    if s == "" then ""
    else if !prev && IsBareReturn(s) then RETURN + TYPED + Sub(w, false, AfterBrace(s))
    else [s[0]] + Sub(w, w(s[0]), s[1..])
  }

  /** The number of replacements it makes. */
  function Bare(w: WordClass, prev: bool, s: string): nat
    decreases |s|
  {
    if s == "" then 0
    else if !prev && IsBareReturn(s) then 1 + Bare(w, false, AfterBrace(s))
    else Bare(w, w(s[0]), s[1..])
  }

  /** FUNC_START.search. */
  predicate HasFuncStart(w: WordClass, prev: bool, s: string)
    decreases |s|
  {
    s != "" && ((!prev && IsFuncStart(s)) || HasFuncStart(w, w(s[0]), s[1..]))
  }

  predicate Has(s: string, c: char) {
    c in s
  }

  // ---------------------------------------------------------------- brace_delta

  datatype Lexer = Code | Str | StrEscape | Chr | ChrEscape

  /** Braces outside strings, character literals and a line comment. */
  function Delta(l: Lexer, s: string): int
    decreases |s|
  {
    if s == "" then 0
    else
      var c, rest := s[0], s[1..];
      match l
      case StrEscape => Delta(Str, rest)
      case ChrEscape => Delta(Chr, rest)
      case Str => Delta(if c == '\\' then StrEscape else if c == '"' then Code else Str, rest)
      case Chr => Delta(if c == '\\' then ChrEscape else if c == '\'' then Code else Chr, rest)
      case Code =>
        if c == '/' && Starts(rest, '/') then 0
        else if c == '"' then Delta(Str, rest)
        else if c == '\'' then Delta(Chr, rest)
        else (if c == '{' then 1 else if c == '}' then -1 else 0) + Delta(Code, rest)
  }

  // ---------------------------------------------------------------- the line loop

  datatype State = State(pending: bool, active: bool, depth: int)

  /** One line: the state after it, and whether it is rewritten. */
  function Step(w: WordClass, st: State, line: string): (State, bool) {
    var pending := st.pending || (!st.active && HasFuncStart(w, false, line));
    if !pending && !st.active then (st, false)
    else if pending && Has(line, ';') && !Has(line, '{') then (State(false, st.active, st.depth), false)
    else
      var d := Delta(Code, line);
      var opens := pending && Has(line, '{');
      var active := opens || st.active;
      var depth := if opens then d else if st.active then st.depth + d else st.depth;
      if !active then (State(pending, false, depth), false)
      else if depth <= 0 then (State(pending && !opens, false, 0), true)
      else (State(pending && !opens, true, depth), true)
  }

  function Rewrite(w: WordClass, st: State, lines: seq<string>): seq<string>
    decreases |lines|
  {
    if lines == [] then []
    else
      var r := Step(w, st, lines[0]);
      [if r.1 then Sub(w, false, lines[0]) else lines[0]] + Rewrite(w, r.0, lines[1..])
  }

  function Start(): State {
    State(false, false, 0)
  }

  // ---------------------------------------------------------------- lines of a text

  /** splitlines(keepends=True); line is what was read of the first one. */
  function LinesFrom(line: string, text: string): seq<string>
    decreases |text|
  {
    if text == "" then (if line == "" then [] else [line])
    else if IsBreak(text[0]) then [line + [text[0]]] + LinesFrom("", text[1..])
    else LinesFrom(line + [text[0]], text[1..])
  }

  function Lines(text: string): seq<string> {
    LinesFrom("", text)
  }

  function Join(lines: seq<string>): string
    decreases |lines|
  {
    if lines == [] then "" else lines[0] + Join(lines[1..])
  }

  /** normalize_file on the text of a file. */
  function Normalize(w: WordClass, text: string): string {
    Join(Rewrite(w, Start(), Lines(text)))
  }

  // ---------------------------------------------------------------- what a rewrite leaves

  lemma SubFirst(w: WordClass, prev: bool, s: string)
    ensures (Sub(w, prev, s) == "") == (s == "")
    ensures s != "" ==> Sub(w, prev, s)[0] == s[0]
  {
    if s != "" && !prev && IsBareReturn(s) { assert s[0] == Word(s)[0]; }
  }

  lemma SubCopies(w: WordClass, prev: bool, s: string)
    requires s != "" && (prev || !IsBareReturn(s))
    ensures Sub(w, prev, s)[0] == s[0] && Sub(w, prev, s)[1..] == Sub(w, w(s[0]), s[1..])
  {
    hide IsBareReturn, IsWord;
  }

  lemma WordMore(s: string)
    requires s != "" && IsWord(s[0])
    ensures Word(s) == [s[0]] + Word(s[1..]) && AfterWord(s) == AfterWord(s[1..])
    ensures WordLen(s) == 1 + WordLen(s[1..])
  {
    hide IsWord;
  }

  lemma SpaceMore(s: string)
    requires s != "" && IsSpace(s[0])
    ensures AfterSpace(s) == AfterSpace(s[1..]) && SpaceLen(s) == 1 + SpaceLen(s[1..])
  {
    hide IsSpace;
  }

  /** A word run is copied. */
  lemma {:induction false} SubWord(w: WordClass, prev: bool, s: string)
    requires prev || !IsBareReturn(s)
    ensures WordLen(Sub(w, prev, s)) == WordLen(s) && Word(Sub(w, prev, s)) == Word(s)
    ensures AfterWord(Sub(w, prev, s)) == Sub(w, prev || WordLen(s) > 0, AfterWord(s))
    decreases |s|
  {
    hide IsBareReturn, IsWord, Sub, Word, AfterWord, WordLen;
    SubFirst(w, prev, s);
    if s == "" || !IsWord(s[0]) {
      WordNone(s);
      WordNone(Sub(w, prev, s));
    } else {
      WordInside(w, s[0]);
      SubCopies(w, prev, s);
      WordMore(s);
      WordMore(Sub(w, prev, s));
      SubWord(w, true, s[1..]);
    }
  }

  /** A run of spaces keeps its length, and what follows is rewritten on its own. */
  lemma {:induction false} SubSpace(w: WordClass, prev: bool, s: string)
    ensures SpaceLen(Sub(w, prev, s)) == SpaceLen(s)
    ensures AfterSpace(Sub(w, prev, s)) == Sub(w, prev && SpaceLen(s) == 0, AfterSpace(s))
    decreases |s|
  {
    hide IsBareReturn, IsFuncStart, IsWord, IsSpace, Sub, AfterSpace, SpaceLen;
    SubFirst(w, prev, s);
    if s == "" || !IsSpace(s[0]) {
      SpaceNone(s);
      SpaceNone(Sub(w, prev, s));
    } else {
      SpaceNotWord(w, s[0]);
      NoWordNoMatch(s);
      SubCopies(w, prev, s);
      SpaceMore(s);
      SpaceMore(Sub(w, prev, s));
      SubSpace(w, false, s[1..]);
    }
  }

  lemma SpaceNone(s: string)
    requires s == "" || !IsSpace(s[0])
    ensures SpaceLen(s) == 0 && AfterSpace(s) == s
  {
  }

  lemma WordInside(w: WordClass, c: char)
    requires IsWord(c)
    ensures w(c)
  {
    assert Bounded(w, c);
  }

  lemma SpaceNotWord(w: WordClass, c: char)
    requires IsSpace(c) || c == '{'
    ensures !w(c) && !IsWord(c)
  {
    assert Bounded(w, c);
  }

  /** Where no bare return starts, none starts after rewriting. */
  lemma SubKeepsBare(w: WordClass, prev: bool, s: string)
    requires prev || !IsBareReturn(s)
    ensures IsBareReturn(Sub(w, prev, s)) == IsBareReturn(s)
  {
    hide Sub, Word, AfterWord, WordLen, SpaceLen, AfterSpace;
    SubWord(w, prev, s);
    var p, t := prev || WordLen(s) > 0, AfterWord(s);
    SubSpace(w, p, t);
    SubFirst(w, p && SpaceLen(t) == 0, AfterSpace(t));
  }

  lemma {:induction false} WordOf(w: string, t: string)
    requires (forall i :: 0 <= i < |w| ==> IsWord(w[i])) && (t == "" || !IsWord(t[0]))
    ensures Word(w + t) == w && AfterWord(w + t) == t && WordLen(w + t) == |w|
    decreases |w|
  {
    if w == "" {
      assert w + t == t;
    } else {
      assert (w + t)[0] == w[0] && (w + t)[1..] == w[1..] + t;
      WordOf(w[1..], t);
      WordMore(w + t);
    }
  }

  lemma SpaceOf(t: string)
    requires t != "" && !IsSpace(t[0])
    ensures AfterSpace(" " + t) == t && SpaceLen(" " + t) == 1
  {
    assert (" " + t)[1..] == t;
  }

  lemma Glue(a: string, b: string, c: string, d: string, e: string)
    ensures a + (b + c + d) + e == a + (b + (c + (d + e)))
  {
  }

  lemma AllWord()
    ensures forall i :: 0 <= i < |RETURN| ==> IsWord(RETURN[i])
    ensures forall i :: 0 <= i < |TYPE_NAME| ==> IsWord(TYPE_NAME[i])
    ensures TYPE_NAME[0] == 'M' && !IsSpace('M') && !IsWord(' ') && !IsWord('{') && |TYPE_NAME| > 0
  {
  }

  /** The typed return reads as: return, one space, the type name, the brace. */
  lemma TypedReads(rest: string)
    ensures var r, name := RETURN + TYPED + rest, TYPE_NAME + ("{" + rest);
            && r == RETURN + (" " + name)
            && Word(r) == RETURN && AfterWord(r) == " " + name
            && AfterSpace(" " + name) == name && SpaceLen(" " + name) == 1
            && Word(name) == TYPE_NAME && AfterWord(name) == "{" + rest
            && Starts(name, 'M')
  {
    AllWord();
    Glue(RETURN, " ", TYPE_NAME, "{", rest);
    hide IsWord, IsSpace, Word, AfterWord, AfterSpace, SpaceLen, WordLen;
    var name := TYPE_NAME + ("{" + rest);
    WordOf(TYPE_NAME, "{" + rest);
    SpaceOf(name);
    WordOf(RETURN, " " + name);
  }

  /** The same for the start of a function. */
  lemma SubKeepsFuncStart(w: WordClass, prev: bool, s: string)
    requires prev || !IsBareReturn(s)
    ensures IsFuncStart(Sub(w, prev, s)) == IsFuncStart(s)
  {
    SubWord(w, prev, s);
    var p, t := prev || WordLen(s) > 0, AfterWord(s);
    SubSpace(w, p, t);
    var q, u := p && SpaceLen(t) == 0, AfterSpace(t);
    if !q && IsBareReturn(u) {
      NameIsReturn(w, u);
    } else {
      NameKept(w, q, u);
    }
    hide Sub, Word, AfterWord, WordLen, SpaceLen, AfterSpace;
  }

  lemma NameIsReturn(w: WordClass, u: string)
    requires IsBareReturn(u)
    ensures !NameThenParen(u) && !NameThenParen(Sub(w, false, u))
  {
    TypedReads(Sub(w, false, AfterBrace(u)));
    hide WordLen, SpaceLen;
  }

  lemma NameKept(w: WordClass, q: bool, u: string)
    requires q || !IsBareReturn(u)
    ensures NameThenParen(Sub(w, q, u)) == NameThenParen(u)
  {
    SubFirst(w, q, u);
    hide Sub, Word, AfterWord, WordLen, SpaceLen, AfterSpace;
    SubWord(w, q, u);
    var p, t := q || WordLen(u) > 0, AfterWord(u);
    SubSpace(w, p, t);
    SubFirst(w, p && SpaceLen(t) == 0, AfterSpace(t));
  }

  // ---------------------------------------------------------------- scanning past runs

  lemma NoWordNoMatch(s: string)
    requires WordLen(s) == 0
    ensures !IsBareReturn(s) && !IsFuncStart(s)
  {
    assert Word(s) == "" && |RETURN| > 0 && |TYPE_NAME| > 0;
  }

  lemma WordCut(s: string)
    ensures s == Word(s) + AfterWord(s)
  {
  }

  lemma WordNone(s: string)
    requires s == "" || !IsWord(s[0])
    ensures WordLen(s) == 0 && Word(s) == "" && AfterWord(s) == s
  {
  }

  lemma BareOn(w: WordClass, prev: bool, s: string)
    requires s != "" && (prev || !IsBareReturn(s))
    ensures Bare(w, prev, s) == Bare(w, w(s[0]), s[1..])
  {
    hide IsBareReturn, IsWord;
  }

  lemma FuncOn(w: WordClass, prev: bool, s: string)
    requires s != "" && (prev || !IsFuncStart(s))
    ensures HasFuncStart(w, prev, s) == HasFuncStart(w, w(s[0]), s[1..])
  {
    hide IsFuncStart, IsWord;
  }

  lemma {:induction false} BareWord(w: WordClass, prev: bool, s: string)
    requires prev || !IsBareReturn(s)
    ensures Bare(w, prev, s) == Bare(w, prev || WordLen(s) > 0, AfterWord(s))
    decreases |s|
  {
    hide IsBareReturn, IsWord, Bare, Word, AfterWord, WordLen;
    if s == "" || !IsWord(s[0]) {
      WordNone(s);
    } else {
      WordInside(w, s[0]);
      WordMore(s);
      BareOn(w, prev, s);
      BareWord(w, true, s[1..]);
    }
  }

  lemma {:induction false} FuncWord(w: WordClass, prev: bool, s: string)
    requires prev || !IsFuncStart(s)
    ensures HasFuncStart(w, prev, s) == HasFuncStart(w, prev || WordLen(s) > 0, AfterWord(s))
    decreases |s|
  {
    hide IsFuncStart, IsWord, HasFuncStart, Word, AfterWord, WordLen;
    if s == "" || !IsWord(s[0]) {
      WordNone(s);
    } else {
      WordInside(w, s[0]);
      WordMore(s);
      FuncOn(w, prev, s);
      FuncWord(w, true, s[1..]);
    }
  }

  lemma {:induction false} FuncSpace(w: WordClass, prev: bool, s: string)
    ensures HasFuncStart(w, prev, s) == HasFuncStart(w, prev && SpaceLen(s) == 0, AfterSpace(s))
    decreases |s|
  {
    if s == "" || !IsSpace(s[0]) {
      assert AfterSpace(s) == s;
    } else {
      SpaceNotWord(w, s[0]);
      NoWordNoMatch(s);
      hide IsFuncStart, IsWord, IsSpace;
      SpaceMore(s);
      hide AfterSpace, SpaceLen;
      FuncSpace(w, false, s[1..]);
    }
  }

  /** Nothing matches at a space or a brace, and it leaves a boundary behind it. */
  lemma NoMatch(w: WordClass, s: string)
    requires s != "" && (IsSpace(s[0]) || s[0] == '{')
    ensures !IsBareReturn(s) && !IsFuncStart(s) && !w(s[0])
  {
    SpaceNotWord(w, s[0]);
    NoWordNoMatch(s);
  }

  lemma Skip(w: WordClass, prev: bool, s: string)
    requires s != "" && !IsBareReturn(s) && !IsFuncStart(s) && !w(s[0])
    ensures Sub(w, prev, s) == [s[0]] + Sub(w, false, s[1..])
    ensures Bare(w, prev, s) == Bare(w, false, s[1..])
    ensures HasFuncStart(w, prev, s) == HasFuncStart(w, false, s[1..])
  {
    hide IsBareReturn, IsFuncStart;
  }
}
