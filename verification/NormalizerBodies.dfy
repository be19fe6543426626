/** Which lines the pass rewrites, told from the lines alone, and how. */
module NormalizerBodies {
  import opened Normalizer
  import opened NormalizerLine
  import opened NormalizerPass

  // ---------------------------------------------------------------- function bodies

  /** Braces opened less braces closed on lines o to i - 1. */
  function Sum(lines: seq<string>, o: nat, i: nat): int
    requires o <= i <= |lines|
    decreases i
  {
    if o == i then 0 else Sum(lines, o, i - 1) + Delta(Code, lines[i - 1])
  }

  /** Between a function's head and its brace. */
  predicate Between(line: string) {
    !Has(line, '{') && !Has(line, ';')
  }

  /** Line o has the first brace after the head of a function that is not itself in a
      body, with no semicolon in between. */
  ghost predicate Opens(w: WordClass, lines: seq<string>, o: nat)
    requires o < |lines|
    decreases o, 1
  {
    Has(lines[o], '{') &&
    exists p :: 0 <= p <= o && HasFuncStart(w, false, lines[p]) && !Covered(w, lines, p)
                && forall k :: p <= k < o ==> Between(lines[k])
  }

  /** A body was opened before line i and its braces have not balanced since. */
  ghost predicate Covered(w: WordClass, lines: seq<string>, i: nat)
    requires i <= |lines|
    decreases i, 0
  {
    exists o :: 0 <= o < i && Opens(w, lines, o) && OpenSince(lines, o, i)
  }

  ghost predicate OpenSince(lines: seq<string>, o: nat, i: nat)
    requires o <= i <= |lines|
  {
    forall k :: o < k <= i ==> Sum(lines, o, k) > 0
  }

  /** Line i is part of a body, its opening and closing lines included. */
  ghost predicate InBody(w: WordClass, lines: seq<string>, i: nat)
    requires i < |lines|
  {
    Covered(w, lines, i) || Opens(w, lines, i)
  }

  /** The head of a function was seen and its brace is still to come. */
  ghost predicate Awaits(w: WordClass, lines: seq<string>, i: nat)
    requires i <= |lines|
  {
    exists p :: 0 <= p < i && HasFuncStart(w, false, lines[p]) && !Covered(w, lines, p)
                && forall k :: p <= k < i ==> Between(lines[k])
  }

  // ---------------------------------------------------------------- the loop's state

  function StateAt(w: WordClass, lines: seq<string>, i: nat): State
    requires i <= |lines|
    decreases i
  {
    if i == 0 then Start() else Step(w, StateAt(w, lines, i - 1), lines[i - 1]).0
  }

  ghost predicate Tells(w: WordClass, lines: seq<string>, i: nat, st: State)
    requires i <= |lines|
  {
    && (st.active <==> Covered(w, lines, i))
    && (st.active ==> !st.pending && exists o :: 0 <= o < i && Opens(w, lines, o) && OpenSince(lines, o, i)
                                                 && st.depth == Sum(lines, o, i))
    && (!st.active ==> (st.pending <==> Awaits(w, lines, i)))
  }

  lemma OpeningIsSeen(w: WordClass, lines: seq<string>, o: nat, i: nat)
    requires o <= i <= |lines| && o < |lines| && Opens(w, lines, o) && OpenSince(lines, o, i)
    ensures !Between(lines[o])
    ensures forall p :: o < p <= i ==> Covered(w, lines, p)
  {
    hide HasFuncStart, Sum;
    assert Has(lines[o], '{');
    forall p | o < p <= i ensures Covered(w, lines, p) {
      assert OpenSince(lines, o, p);
    }
  }

  /** No second body opens inside one, and no head is looked for there. */
  lemma OneBody(w: WordClass, lines: seq<string>, o: nat, i: nat)
    requires o < i <= |lines| && Opens(w, lines, o) && OpenSince(lines, o, i - 1)
    ensures !Awaits(w, lines, i)
    ensures i < |lines| && OpenSince(lines, o, i) ==> !Opens(w, lines, i)
  {
    OpeningIsSeen(w, lines, o, i - 1);
    if OpenSince(lines, o, i) { OpeningIsSeen(w, lines, o, i); }
    hide HasFuncStart, Sum, Between, OpenSince, Has;
  }

  lemma NoneAfter(w: WordClass, lines: seq<string>, o: nat, o': nat, i: nat)
    requires o < o' < i <= |lines| && Opens(w, lines, o) && OpenSince(lines, o, i - 1)
    ensures !Opens(w, lines, o')
  {
    assert OpenSince(lines, o, o' - 1) && OpenSince(lines, o, o');
    OneBody(w, lines, o, o');
  }

  /** The opening line of the body that covers i is unique. */
  lemma SameOpening(w: WordClass, lines: seq<string>, o: nat, o': nat, i: nat)
    requires o < i <= |lines| && o' < i && Opens(w, lines, o) && Opens(w, lines, o')
    requires OpenSince(lines, o, i - 1) && OpenSince(lines, o', i - 1)
    ensures o == o'
  {
    hide Opens, OpenSince;
    if o < o' {
      NoneAfter(w, lines, o, o', i);
    } else if o' < o {
      NoneAfter(w, lines, o', o, i);
    }
  }

  lemma SumOne(lines: seq<string>, o: nat, i: nat)
    requires o <= i < |lines|
    ensures Sum(lines, o, i + 1) == Sum(lines, o, i) + Delta(Code, lines[i])
    ensures Sum(lines, o, o) == 0
  {
  }

  lemma OpenNext(lines: seq<string>, o: nat, i: nat)
    requires o <= i < |lines|
    ensures OpenSince(lines, o, i + 1) <==> OpenSince(lines, o, i) && Sum(lines, o, i) + Delta(Code, lines[i]) > 0
  {
    SumOne(lines, o, i);
    hide Sum, Delta;
  }

  lemma OpeningCovers(w: WordClass, lines: seq<string>, i: nat)
    requires i < |lines| && Opens(w, lines, i) && Delta(Code, lines[i]) > 0
    ensures Covered(w, lines, i + 1)
  {
    assert OpenSince(lines, i, i);
    OpenNext(lines, i, i);
    SumOne(lines, i, i);
    hide Sum, Delta, Opens, OpenSince;
  }

  /** Outside bodies: a line is covered by what opens on it, */
  lemma CoveredNext(w: WordClass, lines: seq<string>, i: nat)
    requires i < |lines| && !Covered(w, lines, i)
    ensures Covered(w, lines, i + 1) <==> Opens(w, lines, i) && Delta(Code, lines[i]) > 0
  {
    hide Sum, Delta, Opens;
    SumOne(lines, i, i);
    if Covered(w, lines, i + 1) {
      var o :| 0 <= o < i + 1 && Opens(w, lines, o) && OpenSince(lines, o, i + 1);
      OpenNext(lines, o, i);
    }
    if Opens(w, lines, i) && Delta(Code, lines[i]) > 0 { OpeningCovers(w, lines, i); }
  }

  /** a body opens on the first brace after a head, */
  lemma OpensNext(w: WordClass, lines: seq<string>, i: nat)
    requires i < |lines| && !Covered(w, lines, i)
    ensures Opens(w, lines, i) <==>
              Has(lines[i], '{') && (Awaits(w, lines, i) || HasFuncStart(w, false, lines[i]))
  {
    hide HasFuncStart, Has, Covered, Between;
    if Awaits(w, lines, i) {
      var p :| 0 <= p < i && HasFuncStart(w, false, lines[p]) && !Covered(w, lines, p)
               && forall k :: p <= k < i ==> Between(lines[k]);
    }
  }

  /** and is awaited up to a brace or a semicolon. */
  lemma AwaitsNext(w: WordClass, lines: seq<string>, i: nat)
    requires i < |lines| && !Covered(w, lines, i)
    ensures Awaits(w, lines, i + 1) <==>
              Between(lines[i]) && (Awaits(w, lines, i) || HasFuncStart(w, false, lines[i]))
  {
    hide HasFuncStart, Covered, Between;
    if Awaits(w, lines, i + 1) {
      var p :| 0 <= p < i + 1 && HasFuncStart(w, false, lines[p]) && !Covered(w, lines, p)
               && forall k :: p <= k < i + 1 ==> Between(lines[k]);
    }
    if Awaits(w, lines, i) && Between(lines[i]) {
      var p :| 0 <= p < i && HasFuncStart(w, false, lines[p]) && !Covered(w, lines, p)
               && forall k :: p <= k < i ==> Between(lines[k]);
    }
  }

  // ---------------------------------------------------------------- the loop, step by step

  lemma TellsOutside(w: WordClass, lines: seq<string>, i: nat, st: State)
    requires i < |lines| && Tells(w, lines, i, st) && !st.active
    ensures var r := Step(w, st, lines[i]); Tells(w, lines, i + 1, r.0) && (r.1 <==> InBody(w, lines, i))
  {
    CoveredNext(w, lines, i);
    OpensNext(w, lines, i);
    AwaitsNext(w, lines, i);
    SumOne(lines, i, i);
    OpenNext(lines, i, i);
    assert OpenSince(lines, i, i);
    hide HasFuncStart, Sum, Delta, Opens, Covered, Awaits, Has, OpenSince;
  }

  lemma InsideFrom(w: WordClass, lines: seq<string>, i: nat, o: nat)
    requires o < i < |lines| && Opens(w, lines, o) && OpenSince(lines, o, i)
    ensures Covered(w, lines, i) && !Awaits(w, lines, i + 1)
    ensures Covered(w, lines, i + 1) <==> Sum(lines, o, i) + Delta(Code, lines[i]) > 0
    ensures Sum(lines, o, i + 1) == Sum(lines, o, i) + Delta(Code, lines[i])
    ensures Sum(lines, o, i) + Delta(Code, lines[i]) > 0 ==> OpenSince(lines, o, i + 1)
  {
    hide HasFuncStart, Sum, Delta, Opens, Awaits, Has;
    OneBody(w, lines, o, i + 1);
    SumOne(lines, o, i);
    OpenNext(lines, o, i);
    CoveredOnly(w, lines, o, i + 1);
  }

  lemma TellsInside(w: WordClass, lines: seq<string>, i: nat, st: State)
    requires i < |lines| && Tells(w, lines, i, st) && st.active
    ensures var r := Step(w, st, lines[i]); Tells(w, lines, i + 1, r.0) && (r.1 <==> InBody(w, lines, i))
  {
    hide HasFuncStart, Sum, Delta, Opens, Awaits, Covered, OpenSince, Has;
    var o :| 0 <= o < i && Opens(w, lines, o) && OpenSince(lines, o, i) && st.depth == Sum(lines, o, i);
    InsideFrom(w, lines, i, o);
  }

  /** Only its own opening can cover the line after a body's line. */
  lemma CoveredOnly(w: WordClass, lines: seq<string>, o: nat, i: nat)
    requires o < i <= |lines| && Opens(w, lines, o) && OpenSince(lines, o, i - 1)
    ensures Covered(w, lines, i) <==> OpenSince(lines, o, i)
  {
    hide Sum, Opens;
    if Covered(w, lines, i) {
      var o' :| 0 <= o' < i && Opens(w, lines, o') && OpenSince(lines, o', i);
      assert OpenSince(lines, o', i - 1);
      SameOpening(w, lines, o, o', i);
    }
  }

  lemma StartTells(w: WordClass, lines: seq<string>)
    ensures Tells(w, lines, 0, Start())
  {
    hide HasFuncStart, Opens, OpenSince;
    assert !Covered(w, lines, 0) && !Awaits(w, lines, 0);
  }

  lemma StateNext(w: WordClass, lines: seq<string>, i: nat)
    requires i < |lines|
    ensures StateAt(w, lines, i + 1) == Step(w, StateAt(w, lines, i), lines[i]).0
  {
    hide Step;
  }

  lemma TellsNext(w: WordClass, lines: seq<string>, i: nat, st: State)
    requires i < |lines| && Tells(w, lines, i, st)
    ensures var r := Step(w, st, lines[i]); Tells(w, lines, i + 1, r.0) && (r.1 <==> InBody(w, lines, i))
  {
    hide Tells, Step, InBody;
    if st.active {
      TellsInside(w, lines, i, st);
    } else {
      TellsOutside(w, lines, i, st);
    }
  }

  /** The loop's three variables tell what the lines say. */
  lemma {:induction false} StateTells(w: WordClass, lines: seq<string>, i: nat)
    requires i <= |lines|
    ensures Tells(w, lines, i, StateAt(w, lines, i))
    decreases i
  {
    hide Tells, Step, StateAt, InBody;
    if i == 0 {
      StartState(w, lines);
      StartTells(w, lines);
    } else {
      StateTells(w, lines, i - 1);
      StateNext(w, lines, i - 1);
      TellsNext(w, lines, i - 1, StateAt(w, lines, i - 1));
    }
  }

  lemma StartState(w: WordClass, lines: seq<string>)
    ensures StateAt(w, lines, 0) == Start()
  {
  }

  // ---------------------------------------------------------------- the rewritten lines

  /** The replacements made in the bodies from line i on. */
  ghost function BodyCount(w: WordClass, lines: seq<string>, i: nat): nat
    requires i <= |lines|
    decreases |lines| - i
  {
    if i == |lines| then 0
    else (if InBody(w, lines, i) then Bare(w, false, lines[i]) else 0) + BodyCount(w, lines, i + 1)
  }

  /** The loop rewrites a line exactly if it is part of a body. */
  lemma StepInBody(w: WordClass, lines: seq<string>, i: nat)
    requires i < |lines|
    ensures var r := Step(w, StateAt(w, lines, i), lines[i]);
            r.0 == StateAt(w, lines, i + 1) && (r.1 <==> InBody(w, lines, i))
  {
    StateTells(w, lines, i);
    StateNext(w, lines, i);
    TellsNext(w, lines, i, StateAt(w, lines, i));
    hide Step, Tells, InBody, StateAt;
  }

  function Written(w: WordClass, line: string, rewritten: bool): string {
    if rewritten then Sub(w, false, line) else line
  }

  lemma {:induction false} RestRewritten(w: WordClass, lines: seq<string>, i: nat)
    requires i <= |lines|
    ensures var st := StateAt(w, lines, i);
            var out := Rewrite(w, st, lines[i..]);
            && |out| == |lines| - i && Replaced(w, st, lines[i..]) == BodyCount(w, lines, i)
            && forall k :: i <= k < |lines| ==> out[k - i] == Written(w, lines[k], InBody(w, lines, k))
    decreases |lines| - i
  {
    hide Step, InBody, Sub, Bare, StateAt;
    if i < |lines| {
      StepInBody(w, lines, i);
      RestRewritten(w, lines, i + 1);
      assert lines[i..][0] == lines[i] && lines[i..][1..] == lines[i + 1..];
      var st, rest := StateAt(w, lines, i), Rewrite(w, StateAt(w, lines, i + 1), lines[i + 1..]);
      var first := Written(w, lines[i], InBody(w, lines, i));
      assert Rewrite(w, st, lines[i..]) == [first] + rest;
      assert Replaced(w, st, lines[i..]) == BodyCount(w, lines, i);
      hide Rewrite, Replaced, BodyCount, Written;
      forall k | i <= k < |lines| ensures ([first] + rest)[k - i] == Written(w, lines[k], InBody(w, lines, k)) {
        assert k > i ==> ([first] + rest)[k - i] == rest[k - (i + 1)];
      }
    } else {
      assert lines[i..] == [];
    }
  }

  /** The pass on any lines: exactly the lines in bodies of MkwStateFreeResult2 functions
      are rewritten, after which no bare return is left in them; every other line is what
      it was; and the count is that of the bare returns in those bodies. */
  lemma BodiesRewritten(w: WordClass, lines: seq<string>)
    ensures var out := Rewrite(w, Start(), lines);
            && |out| == |lines| && Replaced(w, Start(), lines) == BodyCount(w, lines, 0)
            && forall k :: 0 <= k < |lines| ==>
                 if InBody(w, lines, k)
                 then out[k] == Sub(w, false, lines[k]) && Bare(w, false, out[k]) == 0
                 else out[k] == lines[k]
  {
    RestRewritten(w, lines, 0);
    assert lines[0..] == lines;
    hide Rewrite, Replaced, InBody, Sub, Bare, BodyCount;
    forall k | 0 <= k < |lines| ensures Bare(w, false, Sub(w, false, lines[k])) == 0 {
      SubIdempotent(w, false, lines[k]);
    }
  }
}
