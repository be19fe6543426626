/** The whole pass over a text: a second pass walks the same states and changes nothing. */
module NormalizerPass {
  import opened Normalizer
  import opened NormalizerLine

  // ---------------------------------------------------------------- the lines of a text

  /** What splitlines gives: no empty line, and a boundary at the end of all but the last. */
  ghost predicate Proper(lines: seq<string>) {
    forall i :: 0 <= i < |lines| ==> IsLine(lines[i]) && (i + 1 < |lines| ==> Ends(lines[i]))
  }

  predicate NoBreak(s: string) {
    forall i :: 0 <= i < |s| ==> !IsBreak(s[i])
  }

  lemma ProperMore(first: string, rest: seq<string>)
    requires first != "" && NoBreak(first[..|first| - 1]) && IsBreak(first[|first| - 1]) && Proper(rest)
    ensures Proper([first] + rest) && Join([first] + rest) == first + Join(rest)
  {
    hide IsBreak;
    var lines := [first] + rest;
    assert lines[1..] == rest;
    forall i | 0 <= i < |lines| - 1 ensures IsLine(lines[i]) && Ends(lines[i]) {
      assert i > 0 ==> lines[i] == rest[i - 1];
    }
    assert rest != [] ==> lines[|rest|] == rest[|rest| - 1];
  }

  lemma {:induction false} LinesAreProper(line: string, text: string)
    requires NoBreak(line)
    ensures Proper(LinesFrom(line, text)) && Join(LinesFrom(line, text)) == line + text
    decreases |text|
  {
    hide IsBreak;
    if text == "" {
      assert line + text == line;
      if line != "" { assert Join([line]) == line + Join([line][1..]); }
    } else if IsBreak(text[0]) {
      var first, rest := line + [text[0]], LinesFrom("", text[1..]);
      assert LinesFrom(line, text) == [first] + rest;
      LinesAreProper("", text[1..]);
      assert "" + text[1..] == text[1..];
      assert first + text[1..] == line + text;
      hide LinesFrom;
      ProperMore(first, rest);
    } else {
      LinesAreProper(line + [text[0]], text[1..]);
      assert line + [text[0]] + text[1..] == line + text;
    }
  }

  lemma {:induction false} LinesOver(line: string, l: string, text: string)
    requires NoBreak(l)
    ensures LinesFrom(line, l + text) == LinesFrom(line + l, text)
    decreases |l|
  {
    hide IsBreak;
    if l == "" {
      assert l + text == text && line + l == line;
    } else {
      assert (l + text)[0] == l[0] && (l + text)[1..] == l[1..] + text;
      LinesOver(line + [l[0]], l[1..], text);
      assert line + [l[0]] + l[1..] == line + l;
    }
  }

  lemma FirstLine(l: string, text: string)
    requires IsLine(l) && (Ends(l) || text == "")
    ensures Lines(l + text) == [l] + Lines(text)
  {
    hide IsBreak;
    var init, last := l[..|l| - 1], l[|l| - 1];
    if Ends(l) {
      assert l + text == init + ([last] + text);
      LinesOver("", init, [last] + text);
      assert "" + init == init && init + [last] == l && ([last] + text)[1..] == text;
    } else {
      assert NoBreak(l) && l + text == l + "";
      LinesOver("", l, "");
      assert "" + l == l && l + "" == l;
    }
  }

  /** Lines that splitlines could have produced are found again in their join. */
  lemma {:induction false} LinesOfJoin(lines: seq<string>)
    requires Proper(lines)
    ensures Lines(Join(lines)) == lines
    decreases |lines|
  {
    if lines != [] {
      assert forall i :: 0 <= i < |lines[1..]| ==> lines[1..][i] == lines[i + 1];
      LinesOfJoin(lines[1..]);
      assert |lines| == 1 ==> Join(lines[1..]) == "";
      FirstLine(lines[0], Join(lines[1..]));
    }
  }

  // ---------------------------------------------------------------- the second pass

  /** Rewriting a line does not change what the loop makes of it. */
  lemma StepAgain(w: WordClass, st: State, line: string)
    ensures Step(w, st, Sub(w, false, line)) == Step(w, st, line)
  {
    SubKeepsSearch(w, false, line);
    SubKeepsChar(w, false, line, ';');
    SubKeepsChar(w, false, line, '{');
    SubKeepsDelta(w, false, line, Code);
    hide HasFuncStart, Delta, Sub, Has;
  }

  /** The replacements a pass makes. */
  function Replaced(w: WordClass, st: State, lines: seq<string>): nat
    decreases |lines|
  {
    if lines == [] then 0
    else
      var r := Step(w, st, lines[0]);
      (if r.1 then Bare(w, false, lines[0]) else 0) + Replaced(w, r.0, lines[1..])
  }

  lemma {:induction false} RewriteAgain(w: WordClass, st: State, lines: seq<string>)
    ensures Rewrite(w, st, Rewrite(w, st, lines)) == Rewrite(w, st, lines)
    ensures Replaced(w, st, Rewrite(w, st, lines)) == 0
    decreases |lines|
  {
    if lines != [] {
      var r := Step(w, st, lines[0]);
      StepAgain(w, st, lines[0]);
      SubIdempotent(w, false, lines[0]);
      hide Step, Sub, Bare;
      var out := Rewrite(w, st, lines);
      assert out[1..] == Rewrite(w, r.0, lines[1..]);
      RewriteAgain(w, r.0, lines[1..]);
    }
  }

  lemma {:induction false} RewriteProper(w: WordClass, st: State, lines: seq<string>)
    requires Proper(lines)
    ensures Proper(Rewrite(w, st, lines)) && |Rewrite(w, st, lines)| == |lines|
    decreases |lines|
  {
    if lines != [] {
      var r := Step(w, st, lines[0]);
      SubKeepsLine(w, false, lines[0]);
      hide Step, Sub, IsLine, Ends;
      assert forall i :: 0 <= i < |lines[1..]| ==> lines[1..][i] == lines[i + 1];
      RewriteProper(w, r.0, lines[1..]);
      var out := Rewrite(w, st, lines);
      forall i | 0 <= i < |out| ensures IsLine(out[i]) && (i + 1 < |out| ==> Ends(out[i])) {
        assert i > 0 ==> out[i] == Rewrite(w, r.0, lines[1..])[i - 1];
      }
    }
  }

  /** Normalising is idempotent on every text, and the second pass replaces nothing. */
  lemma NormalizeIsIdempotent(w: WordClass, text: string)
    ensures Normalize(w, Normalize(w, text)) == Normalize(w, text)
    ensures Replaced(w, Start(), Lines(Normalize(w, text))) == 0
  {
    LinesAreProper("", text);
    RewriteProper(w, Start(), Lines(text));
    LinesOfJoin(Rewrite(w, Start(), Lines(text)));
    RewriteAgain(w, Start(), Lines(text));
  }

  // ---------------------------------------------------------------- the loops

  /** brace_delta: the loop over a line with its three flags. */
  method BraceDelta(line: string) returns (delta: int)
    ensures delta == Delta(Code, line)
  {
    delta := 0;
    var i := 0;
    var inString, inChar, escape := false, false, false;
    assert line[0..] == line;
    while i < |line|
      invariant i <= |line| && !(inString && inChar) && (escape ==> inString || inChar)
      invariant delta + Delta(Mode(inString, inChar, escape), line[i..]) == Delta(Code, line)
    {
      assert line[i..][1..] == line[i + 1..];
      var ch := line[i];
      if escape {
        escape := false;
        i := i + 1;
        continue;
      }
      if inString {
        if ch == '\\' {
          escape := true;
        } else if ch == '"' {
          inString := false;
        }
        i := i + 1;
        continue;
      }
      if inChar {
        if ch == '\\' {
          escape := true;
        } else if ch == '\'' {
          inChar := false;
        }
        i := i + 1;
        continue;
      }
      if ch == '/' && i + 1 < |line| && line[i + 1] == '/' {
        return;
      }
      if ch == '"' {
        inString := true;
      } else if ch == '\'' {
        inChar := true;
      } else if ch == '{' {
        delta := delta + 1;
      } else if ch == '}' {
        delta := delta - 1;
      }
      i := i + 1;
    }
  }

  function Mode(inString: bool, inChar: bool, escape: bool): Lexer {
    if inString then (if escape then StrEscape else Str)
    else if inChar then (if escape then ChrEscape else Chr)
    else Code
  }

  /** The body of the line loop of normalize_file. */
  method NormalizeLine(w: WordClass, st: State, line: string) returns (st': State, written: string, count: nat)
    ensures st' == Step(w, st, line).0
    ensures written == if Step(w, st, line).1 then Sub(w, false, line) else line
    ensures count == if Step(w, st, line).1 then Bare(w, false, line) else 0
  {
    var pending, active, depth := st.pending, st.active, st.depth;
    written, count := line, 0;
    if !active && !pending && HasFuncStart(w, false, line) {
      pending := true;
    }
    if pending || active {
      if pending && Has(line, ';') && !Has(line, '{') {
        pending := false;
      } else {
        var delta := BraceDelta(line);
        if pending && Has(line, '{') {
          pending := false;
          active := true;
          depth := delta;
        } else if active {
          depth := depth + delta;
        }
        if active {
          written := Sub(w, false, line);
          count := Bare(w, false, line);
          if depth <= 0 {
            active := false;
            depth := 0;
          }
        }
      }
    }
    st' := State(pending, active, depth);
  }

  method NormalizeLines(w: WordClass, lines: seq<string>) returns (out: seq<string>, replacements: nat)
    ensures out == Rewrite(w, Start(), lines) && replacements == Replaced(w, Start(), lines)
  {
    hide Step, Sub, Bare, Rewrite, Replaced;
    out, replacements := [], 0;
    var st := Start();
    var n := 0;
    assert lines[0..] == lines && [] + Rewrite(w, Start(), lines) == Rewrite(w, Start(), lines);
    while n < |lines|
      invariant n <= |lines|
      invariant out + Rewrite(w, st, lines[n..]) == Rewrite(w, Start(), lines)
      invariant replacements + Replaced(w, st, lines[n..]) == Replaced(w, Start(), lines)
    {
      var st', written, count := NormalizeLine(w, st, lines[n]);
      OneLine(w, st, lines, n, out, st', written);
      replacements := replacements + count;
      out := out + [written];
      st := st';
      n := n + 1;
    }
    NoLines(w, st);
    assert lines[n..] == [] && out + [] == out;
  }

  lemma NoLines(w: WordClass, st: State)
    ensures Rewrite(w, st, []) == [] && Replaced(w, st, []) == 0
  {
  }

  lemma OneLine(w: WordClass, st: State, lines: seq<string>, n: nat, out: seq<string>, st': State, written: string)
    requires n < |lines| && st' == Step(w, st, lines[n]).0
    requires written == if Step(w, st, lines[n]).1 then Sub(w, false, lines[n]) else lines[n]
    ensures out + Rewrite(w, st, lines[n..]) == out + [written] + Rewrite(w, st', lines[n + 1..])
    ensures Replaced(w, st, lines[n..])
            == (if Step(w, st, lines[n]).1 then Bare(w, false, lines[n]) else 0) + Replaced(w, st', lines[n + 1..])
  {
    hide Step, Sub, Bare;
    assert lines[n..][1..] == lines[n + 1..] && lines[n..][0] == lines[n];
    assert out + ([written] + Rewrite(w, st', lines[n + 1..])) == out + [written] + Rewrite(w, st', lines[n + 1..]);
  }
}
