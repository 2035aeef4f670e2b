/** The top-level loop: read a paragraph, reflow it, and write one empty
    line after it when a blank line ended it. */
module Driver {
  import opened Lines
  import opened Segment
  import opened Reflow
  import opened ReflowFacts

  /** How the program ended: it read the whole input, a paragraph's reflow
      panicked, or a paragraph's reflow ran past the iteration bound. */
  datatype Status = Finished | Panicked(panic: Panic) | Exhausted

  // ---------------------------------------------------------------------
  // The output as a function of the input
  // ---------------------------------------------------------------------

  /** The length of the paragraph at the head of `input`: the index of the
      first blank line, or the whole input when there is none. */
  function ParaEnd(input: seq<Line>, cls: Classes): (j: nat)
    ensures j <= |input| && NoBlank(input[..j], cls)
    ensures j < |input| ==> IsBlank(input[j], cls)
  {
    if |input| == 0 || IsBlank(input[0], cls) then 0
    else
      var j := 1 + ParaEnd(input[1..], cls);
      assert input[..j] == [input[0]] + input[1..][..j - 1];
      j
  }

  /** The head paragraph is determined: any prefix without a blank line
      that ends at a blank line or at the end of the input is it. */
  lemma ParaEndUnique(input: seq<Line>, j: nat, cls: Classes)
    requires j <= |input| && NoBlank(input[..j], cls)
    requires j < |input| ==> IsBlank(input[j], cls)
    ensures j == ParaEnd(input, cls)
  {
  }

  /** The program over the input lines, paragraph by paragraph: each
      paragraph's reflow, then one empty line when a blank line ended the
      paragraph, then the rest of the input. A panic or an exhausted bound
      ends the output with the lines written so far. */
  function Document(input: seq<Line>, cfg: Config, cls: Classes, fuel: nat): (r: (seq<Line>, Status))
    decreases |input|
  {
    var j := ParaEnd(input, cls);
    var o := Run(State(input[..j], 0, []), cfg, cls, fuel);
    if o.Crashed? then (o.Written(), Panicked(o.panic))
    else if o.OutOfFuel? then (o.Written(), Exhausted)
    else if j == |input| then (o.Written(), Finished)
    else
      var d := Document(input[j + 1..], cfg, cls, fuel);
      (o.Written() + [[]] + d.0, d.1)
  }

  /** Appending fitting lines to fitting lines. */
  lemma AppendFits(out: seq<Line>, w: seq<Line>, cfg: Config, cls: Classes)
    requires Extends([], out, cfg, cls) && Extends([], w, cfg, cls)
    ensures Extends([], out + w, cfg, cls)
  {
    forall k | 0 <= k < |out + w|
      ensures Fits((out + w)[k], cfg, cls)
    {
      if k >= |out| {
        assert (out + w)[k] == w[k - |out|];
      }
    }
  }

  /** Every line the program writes is literal or fits within maxLen: the
      reflowed lines by the paragraph loop, the separators because an empty
      line is literal. */
  lemma {:induction false} DocumentFits(input: seq<Line>, cfg: Config, cls: Classes, fuel: nat)
    ensures Extends([], Document(input, cfg, cls, fuel).0, cfg, cls)
    decreases |input|
  {
    var j := ParaEnd(input, cls);
    var o := Run(State(input[..j], 0, []), cfg, cls, fuel);
    RunWritesFitting(State(input[..j], 0, []), cfg, cls, fuel);
    if o.Done? && j < |input| {
      DocumentFits(input[j + 1..], cfg, cls, fuel);
      assert Extends([], [[]], cfg, cls);
      AppendFits(o.Written(), [[]], cfg, cls);
      AppendFits(o.Written() + [[]], Document(input[j + 1..], cfg, cls, fuel).0, cfg, cls);
    }
  }

  // ---------------------------------------------------------------------
  // Input that is already formatted
  // ---------------------------------------------------------------------

  /** The input with every blank line written as the empty line. */
  function Normalised(input: seq<Line>, cls: Classes): (r: seq<Line>)
    ensures |r| == |input|
    ensures forall k :: 0 <= k < |input| ==> r[k] == (if IsBlank(input[k], cls) then [] else input[k])
  {
    seq(|input|, k requires 0 <= k < |input| => if IsBlank(input[k], cls) then [] else input[k])
  }

  /** Every line is blank, literal, or already within the bounds. */
  predicate AllSettledOrBlank(input: seq<Line>, cfg: Config, cls: Classes) {
    forall k :: 0 <= k < |input| ==> IsBlank(input[k], cls) || Settled(input[k], cfg, cls)
  }

  /** Normalisation distributes over concatenation. */
  lemma NormalisedAppend(a: seq<Line>, b: seq<Line>, cls: Classes)
    ensures Normalised(a + b, cls) == Normalised(a, cls) + Normalised(b, cls)
  {
    var l, r := Normalised(a + b, cls), Normalised(a, cls) + Normalised(b, cls);
    assert |l| == |r|;
    forall k | 0 <= k < |l|
      ensures l[k] == r[k]
    {
      if k < |a| {
        assert (a + b)[k] == a[k];
      } else {
        assert (a + b)[k] == b[k - |a|];
      }
    }
  }

  /** The input split at its first blank line, normalised piece by piece. */
  lemma NormalisedAtBlank(input: seq<Line>, j: nat, cls: Classes)
    requires j < |input| && NoBlank(input[..j], cls) && IsBlank(input[j], cls)
    ensures Normalised(input, cls) == input[..j] + [[]] + Normalised(input[j + 1..], cls)
  {
    assert input == input[..j] + [input[j]] + input[j + 1..];
    NormalisedAppend(input[..j] + [input[j]], input[j + 1..], cls);
    NormalisedAppend(input[..j], [input[j]], cls);
    assert Normalised(input[..j], cls) == input[..j];
  }

  /** Input that is already formatted comes back unchanged, except that a
      blank line is written as the empty line. */
  lemma {:induction false} DocumentSettled(input: seq<Line>, cfg: Config, cls: Classes, fuel: nat)
    requires AllSettledOrBlank(input, cfg, cls) && fuel >= |input|
    ensures Document(input, cfg, cls, fuel) == (Normalised(input, cls), Finished)
    decreases |input|
  {
    var j := ParaEnd(input, cls);
    var para := input[..j];
    forall k | 0 <= k < |para|
      ensures Settled(para[k], cfg, cls)
    {
      assert para[k] == input[k];
    }
    ReflowSettled(para, cfg, cls, fuel);
    if j == |input| {
      assert para == input;
      assert Normalised(input, cls) == input;
    } else {
      var tail := input[j + 1..];
      forall k | 0 <= k < |tail|
        ensures IsBlank(tail[k], cls) || Settled(tail[k], cfg, cls)
      {
        assert tail[k] == input[j + 1 + k];
      }
      DocumentSettled(tail, cfg, cls, fuel);
      NormalisedAtBlank(input, j, cls);
    }
  }

  // ---------------------------------------------------------------------
  // The loop as written
  // ---------------------------------------------------------------------

  /** One paragraph of Document, in terms of what ScanPara returns. */
  lemma DocumentStep(input: seq<Line>, para: seq<Line>, more: bool, rest: seq<Line>, o: Outcome,
                     cfg: Config, cls: Classes, fuel: nat)
    requires |para| <= |input| && para == input[..|para|] && NoBlank(para, cls)
    requires more <==> |para| < |input|
    requires more ==> IsBlank(input[|para|], cls) && rest == input[|para| + 1..]
    requires o == Run(State(para, 0, []), cfg, cls, fuel)
    ensures !o.Done? ==>
      Document(input, cfg, cls, fuel) == (o.Written(), if o.Crashed? then Panicked(o.panic) else Exhausted)
    ensures o.Done? && !more ==> Document(input, cfg, cls, fuel) == (o.Written(), Finished)
    ensures o.Done? && more ==>
      var d := Document(rest, cfg, cls, fuel);
      Document(input, cfg, cls, fuel) == (o.Written() + [[]] + d.0, d.1)
  {
    ParaEndUnique(input, |para|, cls);
  }

  /** The whole program over the input lines, each paragraph's loop bounded
      by `fuel` iterations: read a paragraph, reflow it, stop at a panic, an
      exhausted bound or the end of the input, and otherwise write one empty
      line and go on. Every line written fits; input that is already
      formatted, within the bound, is written back with each blank line
      emptied. */
  method Formate(input: seq<Line>, cfg: Config, cls: Classes, fuel: nat) returns (out: seq<Line>, status: Status)
    ensures (out, status) == Document(input, cfg, cls, fuel)
    ensures forall k :: 0 <= k < |out| ==> Fits(out[k], cfg, cls)
    ensures AllSettledOrBlank(input, cfg, cls) && fuel >= |input| ==>
      status == Finished && out == Normalised(input, cls)
  {
    var rest := input;
    out := [];
    assert out + Document(input, cfg, cls, fuel).0 == Document(input, cfg, cls, fuel).0;
    while true
      invariant var d := Document(rest, cfg, cls, fuel); Document(input, cfg, cls, fuel) == (out + d.0, d.1)
      decreases |rest|
    {
      var para, more, rest' := ScanPara(rest, cls);
      var o := ReflowPara(para, cfg, cls, fuel);
      DocumentStep(rest, para, more, rest', o, cfg, cls, fuel);
      ghost var before := out;
      out := out + o.Written();
      if o.Crashed? {
        status := Panicked(o.panic);
        break;
      } else if o.OutOfFuel? {
        status := Exhausted;
        break;
      } else if !more {
        status := Finished;
        break;
      }
      out := out + [[]];
      ghost var d := Document(rest', cfg, cls, fuel);
      assert before + (o.Written() + [[]] + d.0) == out + d.0;
      rest := rest';
    }
    DocumentFits(input, cfg, cls, fuel);
    if AllSettledOrBlank(input, cfg, cls) && fuel >= |input| {
      DocumentSettled(input, cfg, cls, fuel);
    }
  }
}
