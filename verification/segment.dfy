/** Paragraph segmentation: the input is consumed line by line until a
    blank line (which is dropped) or the end of the input. */
module Segment {
  import opened Lines

  /** No line of `para` is blank. */
  predicate NoBlank(para: seq<Line>, cls: Classes) {
    forall k :: 0 <= k < |para| ==> !IsBlank(para[k], cls)
  }

  /** scanPara over the remaining input lines: returns the paragraph, whether
      a blank line ended it (`more`), and the input left after that blank
      line. The paragraph is the longest non-blank prefix of the input. */
  method ScanPara(input: seq<Line>, cls: Classes) returns (para: seq<Line>, more: bool, rest: seq<Line>)
    ensures |para| <= |input| && para == input[..|para|]
    ensures NoBlank(para, cls)
    ensures more <==> |para| < |input|
    ensures more ==> IsBlank(input[|para|], cls) && rest == input[|para| + 1..]
    ensures !more ==> rest == []
  {
    para := [];
    var k := 0;
    while k < |input|
      invariant 0 <= k <= |input|
      invariant para == input[..k]
      invariant NoBlank(para, cls)
    {
      var line := input[k];
      if IsBlank(line, cls) {
        return para, true, input[k + 1..];
      }
      para := para + [line];
      k := k + 1;
    }
    return para, false, [];
  }

  /** The input is exactly the paragraph, then (if more follows) the blank
      line that ended it, then the rest: nothing is lost or reordered. */
  lemma ScanParaSplitsInput(input: seq<Line>, cls: Classes, para: seq<Line>, more: bool, rest: seq<Line>)
    requires |para| <= |input| && para == input[..|para|] && NoBlank(para, cls)
    requires more <==> |para| < |input|
    requires more ==> IsBlank(input[|para|], cls) && rest == input[|para| + 1..]
    requires !more ==> rest == []
    ensures input == para + (if more then [input[|para|]] + rest else [])
    ensures more ==> |rest| < |input|
  {
    if more {
      assert input == input[..|para|] + [input[|para|]] + input[|para| + 1..];
    } else {
      assert input == input[..|para|];
    }
  }
}
