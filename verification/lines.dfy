/** Lines of text as decoded runes, and the two character classes the
    program consults: letters (for the literal-line test) and white space
    (for blank-line detection). The classes come from Unicode tables that
    are not part of this model, so they are carried as parameters. */
module Lines {
  import opened Utf8

  /** A line without its newline, as the sequence of runes it decodes to.
      An invalid leading byte sequence decodes to RuneError. */
  type Line = seq<int>

  /** The ASCII space, the only separator the join and the split use. */
  const Space: int := 0x20

  /** unicode.IsLetter and unicode.IsSpace, taken as given. */
  datatype Classes = Classes(isLetter: int -> bool, isSpace: int -> bool)

  /** The first rune of a line; an empty line decodes to RuneError. */
  function FirstRune(line: Line): (r: int) {
    if |line| == 0 then RuneError else line[0]
  }

  /** A literal line is written verbatim and never joined or split: its
      first rune is RuneError or is not a letter. */
  predicate IsLiteral(line: Line, cls: Classes) {
    FirstRune(line) == RuneError || !cls.isLetter(FirstRune(line))
  }

  /** A line is reflowable exactly when it starts with a letter other than
      RuneError; in particular it is non-empty, so its last rune exists. */
  lemma ReflowableStartsWithLetter(line: Line, cls: Classes)
    ensures !IsLiteral(line, cls) <==> |line| > 0 && line[0] != RuneError && cls.isLetter(line[0])
    ensures |line| == 0 ==> IsLiteral(line, cls)
  {
  }

  /** The literal test on raw bytes: decode the first rune, then classify. */
  predicate IsLiteralBytes(bs: seq<Byte>, cls: Classes) {
    var first := DecodeRune(bs).0;
    first == RuneError || !cls.isLetter(first)
  }

  /** On the encoding of a line of scalar values, the byte-level test and
      the rune-level test agree. */
  lemma IsLiteralOfEncoding(line: Line, cls: Classes)
    requires AllScalar(line)
    ensures IsLiteralBytes(EncodeAll(line), cls) == IsLiteral(line, cls)
  {
    if |line| > 0 {
      DecodeEncodeRune(line[0], EncodeAll(line[1..]));
    }
  }

  /** On any byte line, valid or not, the byte-level test is the rune-level
      test of what the line decodes to. */
  lemma LiteralAllBytes(bs: seq<Byte>, cls: Classes)
    ensures IsLiteralBytes(bs, cls) == IsLiteral(Decode(bs), cls)
  {
  }

  /** A line whose first octet cannot start a UTF-8 sequence is literal,
      whatever the letter table says. */
  lemma InvalidLeadIsLiteral(bs: seq<Byte>, cls: Classes)
    requires |bs| > 0 && (IsCont(bs[0]) || bs[0] in {0xC0, 0xC1} || bs[0] >= 0xF5)
    ensures IsLiteralBytes(bs, cls)
  {
  }

  /** More generally, a line that does not start with the encoding of any
      scalar value is literal, whatever the letter table says. */
  lemma InvalidStartIsLiteral(bs: seq<Byte>, cls: Classes)
    requires |bs| > 0
    requires forall r :: IsScalar(r) && |EncodeRune(r)| <= |bs| ==> bs[..|EncodeRune(r)|] != EncodeRune(r)
    ensures IsLiteralBytes(bs, cls)
  {
    DecodeInvalidStart(bs);
  }

  /** An overlong form, an encoded surrogate, a sequence cut short and a
      bad continuation octet, each at the start of a line: all literal. */
  lemma MalformedStartsAreLiteral(cls: Classes)
    ensures IsLiteralBytes([0xE0, 0x80, 0x80], cls)
    ensures IsLiteralBytes([0xED, 0xA0, 0x80], cls)
    ensures IsLiteralBytes([0xE2, 0x82], cls)
    ensures IsLiteralBytes([0xE2, 0x28, 0xA1], cls)
  {
  }

  /** A blank line: bytes.TrimSpace leaves nothing, i.e. every rune is
      white space (the empty line included). */
  predicate IsBlank(line: Line, cls: Classes) {
    forall k :: 0 <= k < |line| ==> cls.isSpace(line[k])
  }

  /** The join glue: one space between `a` and `b` unless `a` already ends
      in a space. */
  function Glue(a: Line, b: Line): (r: Line)
    requires |a| > 0
    ensures |r| == |a| + |b| + (if a[|a| - 1] == Space then 0 else 1)
  {
    if a[|a| - 1] == Space then a + b else a + [Space] + b
  }

  /** The glued line starts with all of `a` and ends with all of `b`; in
      between is a space exactly when `a` does not already end in one, and
      the line grows unless `b` is empty. */
  lemma GlueKeepsBoth(a: Line, b: Line)
    requires |a| > 0
    ensures var r := Glue(a, b);
      && r[..|a|] == a && r[|r| - |b|..] == b
      && (a[|a| - 1] != Space ==> r[|a|] == Space)
      && (|r| > |a| || b == [])
  {
  }
}
