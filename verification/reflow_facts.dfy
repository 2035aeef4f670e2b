/** Properties of the whole paragraph loop: a paragraph that already fits
    comes out unchanged, and small paragraphs that show how the program as
    written treats the remainder of a split. */
module ReflowFacts {
  import opened Lines
  import opened Reflow

  /** A line the loop leaves alone: literal, or reflowable with a rune count
      within [minLen, maxLen]. */
  predicate Settled(line: Line, cfg: Config, cls: Classes) {
    IsLiteral(line, cls) || cfg.minLen <= |line| <= cfg.maxLen
  }

  predicate AllSettled(para: seq<Line>, cfg: Config, cls: Classes) {
    forall k :: 0 <= k < |para| ==> Settled(para[k], cfg, cls)
  }

  /** A settled line at the cursor is written as it is and nothing else
      changes but the cursor. */
  lemma StepSettled(st: State, cfg: Config, cls: Classes)
    requires st.i < |st.para| && Settled(st.para[st.i], cfg, cls)
    ensures Step(st, cfg, cls) == Ok(State(st.para, st.i + 1, st.out + [st.para[st.i]]))
  {
    if !IsLiteral(st.para[st.i], cls) {
      ReflowableStartsWithLetter(st.para[st.i], cls);
      assert Absorb(st.para, st.i, st.para[st.i], cfg, cls) == (st.para[st.i], st.i);
      StepReflowable(st, cfg, cls);
    }
  }

  /** A reflowable line already at least minLen long and longer than maxLen
      is split with no join. */
  lemma StepSplitOnly(st: State, cfg: Config, cls: Classes, c: Cut, para: seq<Line>)
    requires st.i < |st.para| && !IsLiteral(st.para[st.i], cls)
    requires cfg.minLen <= |st.para[st.i]| && cfg.maxLen < |st.para[st.i]|
    requires CutLine(st.para[st.i], cfg.maxLen) == Some(c)
    requires Reinsert(st.para, c, cls) == Ok(para)
    ensures Step(st, cfg, cls) == Ok(State(para, st.i + 1, st.out + [c.first]))
  {
    ReflowableStartsWithLetter(st.para[st.i], cls);
    assert Absorb(st.para, st.i, st.para[st.i], cfg, cls) == (st.para[st.i], st.i);
  }

  /** From any cursor, a paragraph of settled lines is written out line by
      line, one iteration per line. */
  lemma {:induction false} RunSettled(para: seq<Line>, i: nat, out: seq<Line>, cfg: Config, cls: Classes, fuel: nat)
    requires AllSettled(para, cfg, cls)
    requires i <= |para| && fuel >= |para| - i
    ensures Run(State(para, i, out), cfg, cls, fuel) == Done(out + para[i..])
    decreases |para| - i
  {
    var st := State(para, i, out);
    if i == |para| {
      assert para[i..] == [];
    } else {
      StepSettled(st, cfg, cls);
      RunStepOk(st, cfg, cls, fuel);
      RunSettled(para, i + 1, out + [para[i]], cfg, cls, fuel - 1);
      assert out + [para[i]] + para[i + 1..] == out + para[i..];
    }
  }

  /** Reflowing a paragraph whose every line is literal or already within
      the bounds gives the same paragraph back, one iteration per line. */
  lemma ReflowSettled(para: seq<Line>, cfg: Config, cls: Classes, fuel: nat)
    requires AllSettled(para, cfg, cls) && fuel >= |para|
    ensures Run(State(para, 0, []), cfg, cls, fuel) == Done(para)
  {
    RunSettled(para, 0, [], cfg, cls, fuel);
    assert [] + para[0..] == para;
  }

  // ---------------------------------------------------------------------
  // Small paragraphs, with letters a-z and bounds chosen small
  // ---------------------------------------------------------------------

  const Ascii: Classes := Classes(c => 0x61 <= c <= 0x7A, c => c == 0x20)

  const A: int := 0x61
  const B: int := 0x62
  const C: int := 0x63
  const D: int := 0x64
  const E: int := 0x65
  const F: int := 0x66
  const X: int := 0x78
  const Y: int := 0x79
  const One: int := 0x31
  const Dot: int := 0x2E

  /** Two short lines are joined with one space (minLen 45, maxLen 75). */
  lemma ShortLinesJoin()
    ensures Run(State([[A, B], [C, D]], 0, []), Default, Ascii, 2) == Done([[A, B, Space, C, D]])
  {
    var st := State([[A, B], [C, D]], 0, []);
    assert st.para[1..2] == [[C, D]];
    assert Glue([A, B], [C, D]) == [A, B, Space, C, D];
    assert Joined([A, B], [[C, D]]) == Joined([A, B, Space, C, D], []);
    assert JoinedThrough([A, B], st.para, 0, 1) == [A, B, Space, C, D];
    AbsorbJoinsReflowable(st.para, 0, [A, B], Default, Ascii);
    assert Absorb(st.para, 0, [A, B], Default, Ascii) == ([A, B, Space, C, D], 1);
    assert !IsLiteral(st.para[0], Ascii);
    StepReflowable(st, Default, Ascii);
    assert Step(st, Default, Ascii) == Ok(State(st.para, 1 + 1, st.out + [[A, B, Space, C, D]]));
    assert st.out + [[A, B, Space, C, D]] == [[A, B, Space, C, D]];
    assert Step(st, Default, Ascii) == Ok(State(st.para, 2, [[A, B, Space, C, D]]));
  }

  const ABCD: Line := [A, B, Space, C, D]
  const ABCDCut: Cut := Cut([A, B], 2, [C, D])
  const Split3: Config := Config(0, 3)

  lemma CutABCD()
    ensures CutLine(ABCD, 3) == Some(ABCDCut)
  {
    assert LastSpace(ABCD, 3) == 2;
    assert ABCD[..2] == [A, B] && ABCD[3..] == [C, D];
  }

  /** The cursor moves on over a settled line. */
  lemma Keep(st: State, next: State, fuel: nat)
    requires st.i < |st.para| && fuel > 0 && Settled(st.para[st.i], Split3, Ascii)
    requires next == State(st.para, st.i + 1, st.out + [st.para[st.i]])
    ensures Run(st, Split3, Ascii, fuel) == Run(next, Split3, Ascii, fuel - 1)
  {
    StepSettled(st, Split3, Ascii);
  }

  /** The cursor line is split with `c` and the paragraph becomes `para`. */
  lemma Cutting(st: State, c: Cut, para: seq<Line>, next: State, fuel: nat)
    requires st.i < |st.para| && fuel > 0 && !IsLiteral(st.para[st.i], Ascii)
    requires 3 < |st.para[st.i]| && CutLine(st.para[st.i], 3) == Some(c)
    requires Reinsert(st.para, c, Ascii) == Ok(para)
    requires next == State(para, st.i + 1, st.out + [c.first])
    ensures Run(st, Split3, Ascii, fuel) == Run(next, Split3, Ascii, fuel - 1)
  {
    StepSplitOnly(st, Split3, Ascii, c, para);
  }

  /** With maxLen 3, "ab cd" is split at index 2. The remainder "cd" is put
      back at the split index plus one, which lies past the end of the
      two-line paragraph, so it is appended and comes out after "ef" instead
      of being joined to it. */
  lemma RemainderPassesNextLine()
    ensures Run(State([ABCD, [E, F]], 0, []), Split3, Ascii, 3) == Done([[A, B], [E, F], [C, D]])
  {
    var p1 := [ABCD, [E, F], [C, D]];
    CutABCD();
    assert [ABCD, [E, F]] + [[C, D]] == p1;
    Cutting(State([ABCD, [E, F]], 0, []), ABCDCut, p1, State(p1, 1, [[A, B]]), 3);
    Keep(State(p1, 1, [[A, B]]), State(p1, 2, [[A, B], [E, F]]), 2);
    Keep(State(p1, 2, [[A, B], [E, F]]), State(p1, 3, [[A, B], [E, F], [C, D]]), 1);
  }

  /** The same split before a literal line "1.": the remainder is appended
      after the literal line rather than inserted before it. */
  lemma RemainderPassesLiteral()
    ensures Run(State([ABCD, [One, Dot]], 0, []), Split3, Ascii, 3) == Done([[A, B], [One, Dot], [C, D]])
  {
    var p1 := [ABCD, [One, Dot], [C, D]];
    CutABCD();
    assert [ABCD, [One, Dot]] + [[C, D]] == p1;
    Cutting(State([ABCD, [One, Dot]], 0, []), ABCDCut, p1, State(p1, 1, [[A, B]]), 3);
    Keep(State(p1, 1, [[A, B]]), State(p1, 2, [[A, B], [One, Dot]]), 2);
    Keep(State(p1, 2, [[A, B], [One, Dot]]), State(p1, 3, [[A, B], [One, Dot], [C, D]]), 1);
  }

  const LostPara: seq<Line> := [ABCD, [X], [Y], [One]]
  const LostP1: seq<Line> := [[One], ABCD, [X], [Y], [C, D]]
  const LostP2: seq<Line> := [[One], ABCD, [X], [C, D, Space, Y], [C, D]]
  const LostP4: seq<Line> := [[One], ABCD, [X], [Y, Space, C, D, Space, Y], [C, D]]

  lemma LostRotate()
    ensures Reinsert(LostPara, ABCDCut, Ascii) == Ok(LostP1)
  {
    assert LostPara[3..] + LostPara[..3] + [[C, D]] == LostP1;
  }

  lemma LostMerge()
    ensures Reinsert(LostP1, ABCDCut, Ascii) == Ok(LostP2)
  {
    assert Glue([C, D], [Y]) == [C, D, Space, Y];
    assert LostP1[3 := [C, D, Space, Y]] == LostP2;
  }

  lemma LostSecondCut()
    ensures CutLine([C, D, Space, Y], 3) == Some(Cut([C, D], 2, [Y]))
    ensures Reinsert(LostP2, Cut([C, D], 2, [Y]), Ascii) == Ok(LostP4)
  {
    var cdy := [C, D, Space, Y];
    assert LastSpace(cdy, 3) == 2;
    assert cdy[..2] == [C, D] && cdy[3..] == [Y];
    assert Glue([Y], cdy) == [Y, Space, C, D, Space, Y];
    assert LostP2[3 := [Y, Space, C, D, Space, Y]] == LostP4;
  }

  const Lost0: State := State(LostPara, 0, [])
  const Lost1: State := State(LostP1, 1, [[A, B]])
  const Lost2: State := State(LostP2, 2, [[A, B], [A, B]])
  const Lost3: State := State(LostP2, 3, [[A, B], [A, B], [X]])
  const Lost4: State := State(LostP4, 4, [[A, B], [A, B], [X], [C, D]])
  const Lost5: State := State(LostP4, 5, [[A, B], [A, B], [X], [C, D], [C, D]])

  lemma LostStep1()
    ensures Run(Lost0, Split3, Ascii, 5) == Run(Lost1, Split3, Ascii, 4)
  {
    CutABCD();
    LostRotate();
    assert LostPara[0] == ABCD && |LostPara| == 4;
    assert Lost0.out + [ABCDCut.first] == Lost1.out;
    Cutting(Lost0, ABCDCut, LostP1, Lost1, 5);
  }

  lemma LostStep2()
    ensures Run(Lost1, Split3, Ascii, 4) == Run(Lost2, Split3, Ascii, 3)
  {
    CutABCD();
    LostMerge();
    assert LostP1[1] == ABCD;
    Cutting(Lost1, ABCDCut, LostP2, Lost2, 4);
  }

  lemma LostStep3()
    ensures Run(Lost2, Split3, Ascii, 3) == Run(Lost3, Split3, Ascii, 2)
  {
    assert LostP2[2] == [X];
    Keep(Lost2, Lost3, 3);
  }

  lemma LostStep4()
    ensures Run(Lost3, Split3, Ascii, 2) == Run(Lost4, Split3, Ascii, 1)
  {
    LostSecondCut();
    assert LostP2[3] == [C, D, Space, Y];
    Cutting(Lost3, Cut([C, D], 2, [Y]), LostP4, Lost4, 2);
  }

  lemma LostStep5()
    ensures Run(Lost4, Split3, Ascii, 1) == Done(Lost5.out)
  {
    assert LostP4[4] == [C, D];
    Keep(Lost4, Lost5, 1);
  }

  /** When the line at the split index plus one is literal, the paragraph is
      rotated to start there, which brings the unsplit line back ahead of
      the cursor: "ab" is written twice, and the literal line "1", moved
      behind the cursor, is never written. */
  lemma LiteralLineLost()
    ensures Run(State(LostPara, 0, []), Split3, Ascii, 5) == Done([[A, B], [A, B], [X], [C, D], [C, D]])
  {
    LostStep1();
    LostStep2();
    LostStep3();
    LostStep4();
    LostStep5();
  }

  /** With maxLen 1, "a " is split at its trailing space, leaving an empty
      remainder; the line at the split index plus one, "c", is reflowable,
      so the remainder's last byte is read and the program panics. */
  lemma EmptyRemainderPanics()
    ensures Run(State([[A, Space], [B], [C]], 0, []), Config(0, 1), Ascii, 1)
         == Crashed(EmptyRemainder, [])
  {
    var st := State([[A, Space], [B], [C]], 0, []);
    assert LastSpace([A, Space], 1) == 1;
    StepReflowable(st, Config(0, 1), Ascii);
  }

  /** A reflowable line longer than maxLen with no space in its first
      maxLen + 1 runes panics: the scan ends at -1 and `rs[:-1]` fails
      (main.go:63). */
  lemma NoSpacePanics()
    ensures Run(State([[A, B, C, D]], 0, []), Config(0, 2), Ascii, 1)
         == Crashed(NoSpaceToSplit, [])
  {
    var st := State([[A, B, C, D]], 0, []);
    StepReflowable(st, Config(0, 2), Ascii);
  }
}
