/** The per-paragraph reflow loop: a cursor walks the paragraph; literal
    lines are written as they are; a short reflowable line absorbs the
    reflowable lines after it; a long one is cut at its last space at or
    before rune index maxLen and the remainder is put back into the
    paragraph. The model follows the program as written, including the
    places where the remainder is put back relative to the split index
    rather than the cursor, and the two panics of the split. Before a
    literal line, re-insertion takes the value main.go:69 spells out; the
    aliasing of that append, which overwrites the line after the split
    index with the remainder, is not modelled. */
module Reflow {
  import opened Lines

  /** The width bounds, in runes. */
  datatype Config = Config(minLen: int, maxLen: int)

  /** The program's built-in bounds. */
  const Default: Config := Config(45, 75)

  /** The two index-out-of-range panics of the split. */
  datatype Panic =
    | NoSpaceToSplit   // no space in rs[0..maxLen]: the scan ends at -1 and rs[:-1] panics
    | EmptyRemainder   // the remainder is empty and its last byte is read

  datatype Result<T> = Ok(value: T) | Fail(panic: Panic)

  datatype Option<T> = None | Some(value: T)

  // ---------------------------------------------------------------------
  // Join
  // ---------------------------------------------------------------------

  /** `a` with each line of `ls` glued on in turn. */
  function Joined(a: Line, ls: seq<Line>): (r: Line)
    requires |a| > 0
    ensures |r| >= |a| > 0
    decreases |ls|
  {
    if |ls| == 0 then a else Joined(Glue(a, ls[0]), ls[1..])
  }

  /** The current line after absorbing para[i+1..k+1]. */
  function JoinedThrough(line: Line, para: seq<Line>, i: nat, k: nat): (r: Line)
    requires i <= k < |para| && |line| > 0
  {
    Joined(line, para[i + 1..k + 1])
  }

  lemma JoinedThroughNone(line: Line, para: seq<Line>, i: nat)
    requires i < |para| && |line| > 0
    ensures JoinedThrough(line, para, i, i) == line
  {
    assert para[i + 1..i + 1] == [];
  }

  lemma JoinedThroughShift(line: Line, para: seq<Line>, i: nat, k: nat)
    requires i < k < |para| && |line| > 0
    ensures JoinedThrough(line, para, i, k) == JoinedThrough(Glue(line, para[i + 1]), para, i + 1, k)
  {
    assert para[i + 1..k + 1][1..] == para[i + 2..k + 1];
  }

  /** The join loop: starting with `line` at cursor `i`, keep absorbing the
      next line while the rune count is below minLen and the next line exists
      and is reflowable. Returns the joined line and the cursor of the last
      absorbed line. */
  function Absorb(para: seq<Line>, i: nat, line: Line, cfg: Config, cls: Classes): (r: (Line, nat))
    requires i < |para| && |line| > 0
    ensures i <= r.1 < |para|
    ensures |r.0| >= |line|
    decreases |para| - i
  {
    if |line| >= cfg.minLen || i + 1 == |para| || IsLiteral(para[i + 1], cls) then
      (line, i)
    else
      Absorb(para, i + 1, Glue(line, para[i + 1]), cfg, cls)
  }

  /** What the join loop absorbs: exactly the lines after the cursor up to
      the returned one, every one of them reflowable, each glued on with at
      most one space. */
  lemma {:induction false} AbsorbJoinsReflowable(para: seq<Line>, i: nat, line: Line, cfg: Config, cls: Classes)
    requires i < |para| && |line| > 0
    ensures var r := Absorb(para, i, line, cfg, cls);
      && r.0 == JoinedThrough(line, para, i, r.1)
      && forall k :: i < k <= r.1 ==> !IsLiteral(para[k], cls)
    decreases |para| - i
  {
    if |line| >= cfg.minLen || i + 1 == |para| || IsLiteral(para[i + 1], cls) {
    } else {
      var glued := Glue(line, para[i + 1]);
      AbsorbJoinsReflowable(para, i + 1, glued, cfg, cls);
      JoinedThroughShift(line, para, i, Absorb(para, i + 1, glued, cfg, cls).1);
    }
  }

  /** When the join loop absorbs and when it stops: it takes the next line
      only while the joined line is shorter than minLen, and it stops once
      the line reaches minLen, the paragraph ends or the next line is
      literal. */
  lemma {:induction false} AbsorbStops(para: seq<Line>, i: nat, line: Line, cfg: Config, cls: Classes)
    requires i < |para| && |line| > 0
    ensures var r := Absorb(para, i, line, cfg, cls);
      && (forall k :: i <= k < r.1 ==> |JoinedThrough(line, para, i, k)| < cfg.minLen)
      && (|r.0| >= cfg.minLen || r.1 + 1 == |para| || IsLiteral(para[r.1 + 1], cls))
    decreases |para| - i
  {
    if |line| >= cfg.minLen || i + 1 == |para| || IsLiteral(para[i + 1], cls) {
    } else {
      var glued := Glue(line, para[i + 1]);
      AbsorbStops(para, i + 1, glued, cfg, cls);
      var r := Absorb(para, i + 1, glued, cfg, cls);
      forall k | i <= k < r.1
        ensures |JoinedThrough(line, para, i, k)| < cfg.minLen
      {
        if k == i {
          JoinedThroughNone(line, para, i);
        } else {
          JoinedThroughShift(line, para, i, k);
        }
      }
    }
  }

  // ---------------------------------------------------------------------
  // Split
  // ---------------------------------------------------------------------

  /** The backward scan: the greatest index k <= `from` with rs[k] a space,
      or a negative index when there is none. */
  function LastSpace(rs: Line, from: int): (k: int)
    requires from < |rs|
    ensures k <= from
    ensures from >= -1 ==> k >= -1
    ensures k >= 0 ==> rs[k] == Space
    ensures forall j :: k < j <= from && 0 <= j ==> rs[j] != Space
    decreases from
  {
    if from < 0 then from
    else if rs[from] == Space then from
    else LastSpace(rs, from - 1)
  }

  /** A line cut at a space: `first` before it, `rest` after it. */
  datatype Cut = Cut(first: Line, at: nat, rest: Line)

  /** The cut of an over-long line (more than maxLen runes) at its last space
      at or before rune index maxLen; None when there is no such space, which
      is where the program slices with index -1 and panics. */
  function CutLine(line: Line, maxLen: int): (r: Option<Cut>)
    requires maxLen < |line|
    ensures r.None? <==> forall j :: 0 <= j <= maxLen ==> line[j] != Space
    ensures r.Some? ==>
      && r.value.at <= maxLen
      && |r.value.first| == r.value.at
      && line == r.value.first + [Space] + r.value.rest
      && forall j :: r.value.at < j <= maxLen ==> line[j] != Space
  {
    var k := LastSpace(line, maxLen);
    if k < 0 then None
    else
      assert line == line[..k] + [Space] + line[k + 1..];
      Some(Cut(line[..k], k, line[k + 1..]))
  }

  /** Putting the remainder back. The position used is the split index
      `c.at` plus one, not the cursor: past the end the remainder becomes the
      new last line; before a literal line the whole paragraph is rotated to
      start at that line and the remainder is appended; before a reflowable
      line the remainder, with a space if it lacks a trailing one, is
      prefixed to it, which reads the remainder's last rune and so fails on
      an empty remainder. */
  function Reinsert(para: seq<Line>, c: Cut, cls: Classes): (r: Result<seq<Line>>) {
    if c.at + 1 < |para| then
      if IsLiteral(para[c.at + 1], cls) then
        Ok(para[c.at + 1..] + para[..c.at + 1] + [c.rest])
      else if |c.rest| == 0 then
        Fail(EmptyRemainder)
      else
        Ok(para[c.at + 1 := Glue(c.rest, para[c.at + 1])])
    else
      Ok(para + [c.rest])
  }

  /** Where the remainder goes, and when putting it back panics: it panics
      exactly when the line after the split index is reflowable and the
      remainder is empty; past the end the remainder is appended; before a
      literal line the paragraph is rotated to start there, ends with the
      remainder and keeps every line, those from that line on first and
      then those before it, each in its order; before a reflowable line only that
      line changes, and it becomes the remainder glued to it. */
  lemma ReinsertPlaces(para: seq<Line>, c: Cut, cls: Classes)
    ensures var r := Reinsert(para, c, cls);
      && (r.Fail? <==> c.at + 1 < |para| && !IsLiteral(para[c.at + 1], cls) && c.rest == [])
      && (r.Fail? ==> r.panic == EmptyRemainder)
      && (r.Ok? && c.at + 1 >= |para| ==>
            |r.value| == |para| + 1 && r.value[..|para|] == para && r.value[|para|] == c.rest)
      && (r.Ok? && c.at + 1 < |para| && IsLiteral(para[c.at + 1], cls) ==>
            && |r.value| == |para| + 1
            && r.value[0] == para[c.at + 1]
            && r.value[|para|] == c.rest
            && (forall j :: c.at + 1 <= j < |para| ==> r.value[j - (c.at + 1)] == para[j])
            && (forall j :: 0 <= j <= c.at ==> r.value[|para| - (c.at + 1) + j] == para[j])
            && multiset(r.value) == multiset(para) + multiset{c.rest})
      && (r.Ok? && c.at + 1 < |para| && !IsLiteral(para[c.at + 1], cls) ==>
            && |r.value| == |para|
            && (forall j :: 0 <= j < |para| && j != c.at + 1 ==> r.value[j] == para[j])
            && r.value[c.at + 1] == Glue(c.rest, para[c.at + 1]))
  {
    if c.at + 1 < |para| && IsLiteral(para[c.at + 1], cls) {
      assert para == para[..c.at + 1] + para[c.at + 1..];
    }
  }

  /** The split of an over-long line: the part written now, and the
      paragraph with the remainder put back. */
  function Split(para: seq<Line>, line: Line, cfg: Config, cls: Classes): (r: Result<(Line, seq<Line>)>)
    requires cfg.maxLen < |line|
  {
    match CutLine(line, cfg.maxLen)
    case None => Fail(NoSpaceToSplit)
    case Some(c) =>
      match Reinsert(para, c, cls)
      case Fail(p) => Fail(p)
      case Ok(para') => Ok((c.first, para'))
  }

  // ---------------------------------------------------------------------
  // One pass of the cursor loop, and the loop
  // ---------------------------------------------------------------------

  /** The paragraph being rewritten, the cursor, and the lines written. */
  datatype State = State(para: seq<Line>, i: nat, out: seq<Line>)

  /** A written line either is literal or fits within maxLen runes. */
  predicate Fits(line: Line, cfg: Config, cls: Classes) {
    IsLiteral(line, cls) || |line| <= cfg.maxLen
  }

  /** One iteration of the cursor loop: handle the line at the cursor, write
      one line, advance the cursor past it and past every absorbed line. */
  function Step(st: State, cfg: Config, cls: Classes): (r: Result<State>)
    requires st.i < |st.para|
  {
    var line := st.para[st.i];
    if IsLiteral(line, cls) then
      Ok(State(st.para, st.i + 1, st.out + [line]))
    else
      ReflowableStartsWithLetter(line, cls);
      var (joined, j) := Absorb(st.para, st.i, line, cfg, cls);
      if |joined| <= cfg.maxLen then
        Ok(State(st.para, j + 1, st.out + [joined]))
      else
        match Split(st.para, joined, cfg, cls)
        case Fail(p) => Fail(p)
        case Ok((first, para)) => Ok(State(para, j + 1, st.out + [first]))
  }

  /** Every iteration that does not panic moves the cursor forward, writes
      exactly one line, which is literal or fits within maxLen, and never
      increases the number of lines left after the cursor. */
  lemma StepAdvances(st: State, cfg: Config, cls: Classes, next: State)
    requires st.i < |st.para| && Step(st, cfg, cls) == Ok(next)
    ensures st.i < next.i <= |next.para|
    ensures |next.out| == |st.out| + 1 && Extends(st.out, next.out, cfg, cls)
    ensures |next.para| - next.i <= |st.para| - st.i
  {
    ReflowableStartsWithLetter(st.para[st.i], cls);
  }

  /** A reflowable line at the cursor: after the join, a line within maxLen
      is written and the paragraph is left alone. A longer one panics with
      NoSpaceToSplit exactly when no space lies in its first maxLen + 1
      runes, and with EmptyRemainder exactly when it can be cut but putting
      the remainder back fails; otherwise the part before the last space in
      reach is written and the remainder is put back at the split index plus
      one (the length of the written part plus one), whatever the cursor. */
  lemma StepReflowable(st: State, cfg: Config, cls: Classes)
    requires st.i < |st.para| && !IsLiteral(st.para[st.i], cls)
    ensures var r := Step(st, cfg, cls);
      var (line, j) := Absorb(st.para, st.i, st.para[st.i], cfg, cls);
      && (|line| <= cfg.maxLen ==> r == Ok(State(st.para, j + 1, st.out + [line])))
      && (|line| > cfg.maxLen ==>
            && (r == Fail(NoSpaceToSplit) <==> forall q :: 0 <= q <= cfg.maxLen ==> line[q] != Space)
            && (r == Fail(EmptyRemainder) <==>
                  CutLine(line, cfg.maxLen).Some? && Reinsert(st.para, CutLine(line, cfg.maxLen).value, cls).Fail?)
            && (r.Ok? ==>
                  var first := r.value.out[|st.out|];
                  && |first| == LastSpace(line, cfg.maxLen)
                  && |first| <= cfg.maxLen
                  && line == first + [Space] + line[|first| + 1..]
                  && r.value.i == j + 1
                  && Reinsert(st.para, Cut(first, |first|, line[|first| + 1..]), cls) == Ok(r.value.para)))
  {
    ReflowableStartsWithLetter(st.para[st.i], cls);
  }

  /** How a paragraph's loop ends: every line handled, a panic (with the
      lines written before it), or the iteration bound reached. */
  datatype Outcome =
    | Done(out: seq<Line>)
    | Crashed(panic: Panic, out: seq<Line>)
    | OutOfFuel(st: State)
  {
    /** The lines written before the loop ended, however it ended. */
    function Written(): seq<Line> {
      if OutOfFuel? then st.out else out
    }
  }

  /** At most `fuel` iterations of the cursor loop from `st`. */
  function Run(st: State, cfg: Config, cls: Classes, fuel: nat): (o: Outcome)
    decreases fuel
  {
    if st.i >= |st.para| then Done(st.out)
    else if fuel == 0 then OutOfFuel(st)
    else
      match Step(st, cfg, cls)
      case Fail(p) => Crashed(p, st.out)
      case Ok(next) => Run(next, cfg, cls, fuel - 1)
  }

  /** One more iteration of the loop, when it does not panic. */
  lemma RunStepOk(st: State, cfg: Config, cls: Classes, fuel: nat)
    requires st.i < |st.para| && fuel > 0 && Step(st, cfg, cls).Ok?
    ensures Run(st, cfg, cls, fuel) == Run(Step(st, cfg, cls).value, cfg, cls, fuel - 1)
  {
  }

  /** `w` starts with `a`, and every line after that fits. */
  predicate Extends(a: seq<Line>, w: seq<Line>, cfg: Config, cls: Classes) {
    && |a| <= |w|
    && w[..|a|] == a
    && forall k :: |a| <= k < |w| ==> Fits(w[k], cfg, cls)
  }

  lemma ExtendsTrans(a: seq<Line>, b: seq<Line>, w: seq<Line>, cfg: Config, cls: Classes)
    requires Extends(a, b, cfg, cls) && Extends(b, w, cfg, cls)
    ensures Extends(a, w, cfg, cls)
  {
    assert w[..|a|] == b[..|a|];
    forall k | |a| <= k < |b|
      ensures w[k] == b[k]
    {
      assert w[..|b|][k] == b[k];
    }
  }

  /** However the loop ends, the lines already written stay in front and
      every line written on the way is literal or fits within maxLen. */
  lemma {:induction false} RunWritesFitting(st: State, cfg: Config, cls: Classes, fuel: nat)
    ensures Extends(st.out, Run(st, cfg, cls, fuel).Written(), cfg, cls)
    decreases fuel
  {
    if st.i < |st.para| && fuel > 0 && Step(st, cfg, cls).Ok? {
      var next := Step(st, cfg, cls).value;
      StepAdvances(st, cfg, cls, next);
      RunWritesFitting(next, cfg, cls, fuel - 1);
      RunStepOk(st, cfg, cls, fuel);
      ExtendsTrans(st.out, next.out, Run(next, cfg, cls, fuel - 1).Written(), cfg, cls);
    } else {
      assert st.out[..|st.out|] == st.out;
    }
  }

  /** The join loop as written: grow `line` by the next line, with a space
      if `line` does not already end in one, while its rune count is below
      minLen and the next line exists and is reflowable. */
  method JoinLoop(para: seq<Line>, i0: nat, line0: Line, cfg: Config, cls: Classes) returns (line: Line, i: nat)
    requires i0 < |para| && |line0| > 0
    ensures (line, i) == Absorb(para, i0, line0, cfg, cls)
  {
    line, i := line0, i0;
    var n := |line|;
    while n < cfg.minLen
      invariant i0 <= i < |para|
      invariant |line| > 0 && n == |line|
      invariant Absorb(para, i, line, cfg, cls) == Absorb(para, i0, line0, cfg, cls)
      decreases |para| - i
    {
      if i + 1 == |para| || IsLiteral(para[i + 1], cls) {
        break;
      }
      if line[|line| - 1] != Space {
        line := line + [Space];
      }
      line := line + para[i + 1];
      i := i + 1;
      n := |line|;
    }
  }

  /** The backward scan as written: from rune index maxLen down to 0, stop
      at the first space. */
  method ScanBack(rs: Line, maxLen: int) returns (k: int)
    requires maxLen < |rs|
    ensures k == LastSpace(rs, maxLen)
  {
    k := maxLen;
    while k >= 0
      invariant k <= maxLen
      invariant LastSpace(rs, k) == LastSpace(rs, maxLen)
      decreases k
    {
      if rs[k] == Space {
        break;
      }
      k := k - 1;
    }
  }

  /** The split as written: scan back for the split index, cut there, and
      put the remainder back at the split index plus one. In the program the
      split index is a second `i` that shadows the cursor. */
  method SplitLong(para0: seq<Line>, line: Line, cfg: Config, cls: Classes) returns (r: Result<(Line, seq<Line>)>)
    requires cfg.maxLen < |line|
    ensures r == Split(para0, line, cfg, cls)
  {
    var para := para0;
    var k := ScanBack(line, cfg.maxLen);
    if k < 0 {
      return Fail(NoSpaceToSplit);
    }
    var first := line[..k];
    var rest := line[k + 1..];
    assert CutLine(line, cfg.maxLen) == Some(Cut(first, k, rest));
    if k + 1 < |para| {
      if IsLiteral(para[k + 1], cls) {
        para := para[k + 1..] + para[..k + 1] + [rest];
      } else {
        if |rest| == 0 {
          return Fail(EmptyRemainder);
        }
        if rest[|rest| - 1] != Space {
          rest := rest + [Space];
        }
        para := para[k + 1 := rest + para[k + 1]];
      }
    } else {
      para := para + [rest];
    }
    return Ok((first, para));
  }

  /** The body of the paragraph loop as written, for the line at the
      cursor: a literal line is written; otherwise the join loop runs, the
      joined line is split when it is too long, and the cursor moves past
      the last line used. */
  method StepLine(para0: seq<Line>, i0: nat, out0: seq<Line>, cfg: Config, cls: Classes) returns (r: Result<State>)
    requires i0 < |para0|
    ensures r == Step(State(para0, i0, out0), cfg, cls)
  {
    var line := para0[i0];
    if IsLiteral(line, cls) {
      return Ok(State(para0, i0 + 1, out0 + [line]));
    }
    ReflowableStartsWithLetter(line, cls);
    var i;
    line, i := JoinLoop(para0, i0, line, cfg, cls);
    StepAfterJoin(State(para0, i0, out0), cfg, cls, line, i);
    if |line| <= cfg.maxLen {
      return Ok(State(para0, i + 1, out0 + [line]));
    }
    var split := SplitLong(para0, line, cfg, cls);
    if split.Fail? {
      return Fail(split.panic);
    }
    return Ok(State(split.value.1, i + 1, out0 + [split.value.0]));
  }

  /** Step on a reflowable line, in terms of the join loop's result. */
  lemma StepAfterJoin(st: State, cfg: Config, cls: Classes, line: Line, j: nat)
    requires st.i < |st.para| && !IsLiteral(st.para[st.i], cls)
    requires |st.para[st.i]| > 0 && Absorb(st.para, st.i, st.para[st.i], cfg, cls) == (line, j)
    ensures |line| <= cfg.maxLen ==> Step(st, cfg, cls) == Ok(State(st.para, j + 1, st.out + [line]))
    ensures |line| > cfg.maxLen ==>
      Step(st, cfg, cls) == (
        match Split(st.para, line, cfg, cls)
        case Fail(p) => Fail(p)
        case Ok((first, para)) => Ok(State(para, j + 1, st.out + [first])))
  {
  }

  /** The paragraph loop as the program writes it: a cursor `i` over a
      paragraph that grows, shrinks and is rearranged while it is walked.
      `fuel` bounds the number of iterations. */
  method ReflowPara(para0: seq<Line>, cfg: Config, cls: Classes, fuel: nat) returns (o: Outcome)
    ensures o == Run(State(para0, 0, []), cfg, cls, fuel)
  {
    var st := State(para0, 0, []);
    var left: nat := fuel;
    while st.i < |st.para|
      invariant Run(st, cfg, cls, left) == Run(State(para0, 0, []), cfg, cls, fuel)
      decreases left
    {
      if left == 0 {
        return OutOfFuel(st);
      }
      var r := StepLine(st.para, st.i, st.out, cfg, cls);
      if r.Fail? {
        return Crashed(r.panic, st.out);
      }
      st := r.value;
      left := left - 1;
    }
    return Done(st.out);
  }
}
