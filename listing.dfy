/** The lines the disassembler prints, and how `printf` lays each one out:
    an 18-column label, then the operands separated by single spaces. */
module Listing {
  import opened Format

  /** One line of the listing, with the values its format string converts. */
  datatype Line =
    | ArrayCreateLine(retval: Word, length: int)
    | JumpIfTrueLine(cond: Word, offset: int)
    | JumpIfFalseLine(cond: Word, offset: int)
    | JumpLine(offset: int)
    | MethodLine(func: Word, obj: Word, meth: Word, nargs: int)
    | PropertyStartLine(each: Word, obj: Word, offset: int)
    | PropertyEachLine(retval: Word, obj: Word, each: Word, offset: int)
    | TryStartLine(value: Word, offset: int)
    | CatchLine(exception: Word, offset: int)
    | TryEndLine(offset: int)
    | Code3Line(name: string, dst: Word, src1: Word, src2: Word)
    | Code2Line(name: string, dst: Word, src: Word)
    | Code1Line(name: string, index: Word)
    | UnknownLine(operation: Word)

  /** One converted operand, by the conversion that prints it. */
  datatype Operand =
    | Address(w: Word)       // %04lX
    | Count(n: int)          // %ld or %d
    | SignedJump(n: int)     // %s%ld, the sign chosen by SignPrefix
    | ForwardOffset(n: int)  // +%ld, a literal plus

  function Text(o: Operand): string {
    match o
    case Address(w) => Hex04(w)
    case Count(n) => Decimal(n)
    case SignedJump(n) => SignedOffset(n)
    case ForwardOffset(n) => PlusOffset(n)
  }

  /** Where the first operand starts. */
  const OPERAND_COLUMN: nat := 18

  /** The fixed mnemonics of the special forms and of an unknown tag, each
      padded to the operand column. */
  const ARRAY_CREATE_LABEL: string := "ARRAY CREATE      "
  const JUMP_IF_TRUE_LABEL: string := "JUMP IF TRUE      "
  const JUMP_IF_FALSE_LABEL: string := "JUMP IF FALSE     "
  const JUMP_LABEL: string := "JUMP              "
  const METHOD_LABEL: string := "METHOD            "
  const PROPERTY_START_LABEL: string := "PROPERTY START    "
  const PROPERTY_EACH_LABEL: string := "PROPERTY EACH     "
  const TRY_START_LABEL: string := "TRY START         "
  const CATCH_LABEL: string := "CATCH             "
  const TRY_END_LABEL: string := "TRY END           "
  const UNKNOWN_LABEL: string := "UNKNOWN           "

  /** The text before the first operand: the fixed mnemonic of a special
      form, or `%*s  ` of a catalog name with its own length as width. A
      catalog name is printed whole; once it is 16 wide, every label ends in
      two spaces at the operand column. */
  function Label(line: Line): (r: string)
    ensures line.Code3Line? || line.Code2Line? || line.Code1Line? ==>
              r == line.name + "  "
    ensures NameAligned(line) ==> |r| == OPERAND_COLUMN && r[OPERAND_COLUMN - 2..] == "  "
  {
    match line
    case ArrayCreateLine(_, _) => ARRAY_CREATE_LABEL
    case JumpIfTrueLine(_, _) => JUMP_IF_TRUE_LABEL
    case JumpIfFalseLine(_, _) => JUMP_IF_FALSE_LABEL
    case JumpLine(_) => JUMP_LABEL
    case MethodLine(_, _, _, _) => METHOD_LABEL
    case PropertyStartLine(_, _, _) => PROPERTY_START_LABEL
    case PropertyEachLine(_, _, _, _) => PROPERTY_EACH_LABEL
    case TryStartLine(_, _) => TRY_START_LABEL
    case CatchLine(_, _) => CATCH_LABEL
    case TryEndLine(_) => TRY_END_LABEL
    case Code3Line(name, _, _, _) => Pad(name, |name|, ' ') + "  "
    case Code2Line(name, _, _) => Pad(name, |name|, ' ') + "  "
    case Code1Line(name, _) => Pad(name, |name|, ' ') + "  "
    case UnknownLine(_) => UNKNOWN_LABEL
  }

  /** The operands of a line, in the order the format string prints them.
      Every line prints one to four of them; a line that carries an offset
      prints it last, with the conversion its form uses. */
  function Operands(line: Line): (r: seq<Operand>)
    ensures 1 <= |r| <= 4
    ensures line.JumpIfTrueLine? || line.JumpIfFalseLine? || line.JumpLine? ==>
              r[|r| - 1] == SignedJump(line.offset)
    ensures line.PropertyStartLine? || line.TryStartLine? || line.CatchLine? || line.TryEndLine? ==>
              r[|r| - 1] == ForwardOffset(line.offset)
    ensures line.PropertyEachLine? ==> r[|r| - 1] == Count(line.offset)
  {
    match line
    case ArrayCreateLine(r, n) => [Address(r), Count(n)]
    case JumpIfTrueLine(c, o) => [Address(c), SignedJump(o)]
    case JumpIfFalseLine(c, o) => [Address(c), SignedJump(o)]
    case JumpLine(o) => [SignedJump(o)]
    case MethodLine(f, ob, m, n) => [Address(f), Address(ob), Address(m), Count(n)]
    case PropertyStartLine(e, ob, o) => [Address(e), Address(ob), ForwardOffset(o)]
    case PropertyEachLine(r, ob, e, o) => [Address(r), Address(ob), Address(e), Count(o)]
    case TryStartLine(v, o) => [Address(v), ForwardOffset(o)]
    case CatchLine(e, o) => [Address(e), ForwardOffset(o)]
    case TryEndLine(o) => [ForwardOffset(o)]
    case Code3Line(_, d, s1, s2) => [Address(d), Address(s1), Address(s2)]
    case Code2Line(_, d, s) => [Address(d), Address(s)]
    case Code1Line(_, i) => [Address(i)]
    case UnknownLine(op) => [Address(op)]
  }

  /** The operand texts separated by single spaces. */
  function Join(ops: seq<Operand>): string
    decreases |ops|
  {
    if ops == [] then ""
    else if |ops| == 1 then Text(ops[0])
    else Text(ops[0]) + " " + Join(ops[1..])
  }

  /** The text `printf` writes for a line (its trailing newline aside): the
      label, then at least one operand character in the operand column. */
  function Render(line: Line): (r: string)
    ensures NameAligned(line) ==>
              |r| > OPERAND_COLUMN && r[..OPERAND_COLUMN] == Label(line) && r[OPERAND_COLUMN] != ' '
  {
    var ops := Operands(line);
    JoinStart(ops);
    OperandReadsBack(ops[0]);
    Label(line) + Join(ops)
  }

  /** The texts of a list of operands. */
  function Texts(ops: seq<Operand>): (ts: seq<string>)
    ensures |ts| == |ops|
    ensures forall i :: 0 <= i < |ops| ==> ts[i] == Text(ops[i])
  {
    if ops == [] then [] else [Text(ops[0])] + Texts(ops[1..])
  }

  /** A reader's view of a line's operand text: the words between single spaces. */
  function Split(s: string): (r: seq<string>)
    ensures |r| >= 1
    decreases |s|
  {
    if s == [] then [""]
    else
      var rest := Split(s[1..]);
      if s[0] == ' ' then [""] + rest else [[s[0]] + rest[0]] + rest[1..]
  }

  /** Each operand prints as one word that denotes its value: an address as
      at least four upper-case hexadecimal digits, a count as `%ld` does, a
      jump offset with exactly one sign, `+` exactly when it is not negative,
      and a forward offset behind a literal `+`. */
  lemma OperandReadsBack(o: Operand)
    ensures |Text(o)| >= 1 && ' ' !in Text(o)
    ensures o.Address? ==> AllHexDigits(Text(o)) && |Text(o)| >= 4 && HexValue(Text(o)) == o.w
    ensures o.Count? ==> NumeralValue(Text(o)) == o.n && (o.n >= 0 ==> AllDecimalDigits(Text(o)))
    ensures o.SignedJump? ==> (Text(o)[0] == '+' <==> o.n >= 0) && NumeralValue(Text(o)) == o.n
    ensures o.ForwardOffset? ==> Text(o)[0] == '+' && Text(o)[1..] == Decimal(o.n)
  {
    match o
    case Address(w) => AddressReadsBack(w);
    case Count(n) => CountReadsBack(n);
    case SignedJump(n) => NoSpaceIn(SignedOffset(n));
    case ForwardOffset(n) => ForwardOffsetReadsBack(n);
  }

  lemma AddressReadsBack(w: Word)
    ensures |Hex04(w)| >= 4 && ' ' !in Hex04(w)
    ensures AllHexDigits(Hex04(w)) && HexValue(Hex04(w)) == w
  {
    HexField(w);
    NoSpaceIn(Hex04(w));
  }

  lemma CountReadsBack(n: int)
    ensures |Decimal(n)| >= 1 && ' ' !in Decimal(n)
    ensures NumeralValue(Decimal(n)) == n && (n >= 0 ==> AllDecimalDigits(Decimal(n)))
  {
    DecimalField(n);
    NoSpaceIn(Decimal(n));
  }

  lemma ForwardOffsetReadsBack(n: int)
    ensures |PlusOffset(n)| >= 1 && ' ' !in PlusOffset(n)
  {
    DecimalField(n);
    NoSpaceIn(Decimal(n));
    assert PlusOffset(n) == "+" + Decimal(n);
  }

  lemma NoSpaceIn(s: string)
    requires |s| >= 1
    requires s[0] == '+' || s[0] == '-' || IsHexDigit(s[0])
    requires AllHexDigits(s[1..]) || AllDecimalDigits(s[1..])
    ensures ' ' !in s
  {
  }

  lemma {:induction false} SplitWord(t: string, u: string)
    requires ' ' !in t
    ensures Split(t) == [t]
    ensures Split(t + " " + u) == [t] + Split(u)
    decreases |t|
  {
    if t != [] {
      SplitWord(t[1..], u);
      assert [t[0]] + t[1..] == t;
      assert (t + " " + u)[1..] == t[1..] + " " + u;
    }
  }

  /** The operand text of a line splits back into exactly its operands. */
  lemma {:induction false} SplitJoin(ops: seq<Operand>)
    requires |ops| >= 1
    ensures Split(Join(ops)) == Texts(ops)
    decreases |ops|
  {
    OperandReadsBack(ops[0]);
    SplitWord(Text(ops[0]), if |ops| == 1 then "" else Join(ops[1..]));
    if |ops| > 1 {
      SplitJoin(ops[1..]);
    }
  }

  /** A line whose catalog name, if any, is exactly 16 characters wide. */
  predicate NameAligned(line: Line) {
    (line.Code3Line? || line.Code2Line? || line.Code1Line?) ==> |line.name| == 16
  }

  /** Every line starts with an 18-column label ending in two spaces; from
      column 18 on come the operands, one word each, separated by single
      spaces, in the order of `Operands`. */
  lemma LineLayout(line: Line)
    requires NameAligned(line)
    ensures |Label(line)| == OPERAND_COLUMN
    ensures Label(line)[OPERAND_COLUMN - 2..] == "  "
    ensures Render(line)[..OPERAND_COLUMN] == Label(line)
    ensures Split(Render(line)[OPERAND_COLUMN..]) == Texts(Operands(line))
    ensures Render(line)[OPERAND_COLUMN] != ' '
  {
    var ops := Operands(line);
    SplitJoin(ops);
    OperandReadsBack(ops[0]);
    assert Render(line)[OPERAND_COLUMN..] == Join(ops);
    JoinStart(ops);
  }

  /** The last word of a line that carries a jump offset: the jumps print
      it with exactly one sign (`+` for zero and forward jumps); PROPERTY
      START, TRY START, CATCH and TRY END put a literal `+` before `%ld`,
      which for a negative offset gives `+-`; PROPERTY EACH prints it bare. */
  lemma OffsetWord(line: Line)
    requires line.JumpIfTrueLine? || line.JumpIfFalseLine? || line.JumpLine?
             || line.PropertyStartLine? || line.PropertyEachLine?
             || line.TryStartLine? || line.CatchLine? || line.TryEndLine?
    ensures var words := Split(Render(line)[OPERAND_COLUMN..]);
            var w := words[|words| - 1];
            && (line.JumpIfTrueLine? || line.JumpIfFalseLine? || line.JumpLine? ==>
                  w == SignedOffset(line.offset))
            && (line.PropertyStartLine? || line.TryStartLine? || line.CatchLine? || line.TryEndLine? ==>
                  w == PlusOffset(line.offset))
            && (line.PropertyEachLine? ==> w == Decimal(line.offset))
  {
    LastWord(line);
  }

  /** The last word of a line is the text of its last operand. */
  lemma LastWord(line: Line)
    requires NameAligned(line)
    ensures var words := Split(Render(line)[OPERAND_COLUMN..]);
            var ops := Operands(line);
            |ops| >= 1 && words[|words| - 1] == Text(ops[|ops| - 1])
  {
    var ops := Operands(line);
    LineLayout(line);
    assert Texts(ops)[|ops| - 1] == Text(ops[|ops| - 1]);
  }

  lemma JoinStart(ops: seq<Operand>)
    requires |ops| >= 1
    ensures |Join(ops)| >= 1 && Join(ops)[0] == Text(ops[0])[0]
  {
    OperandReadsBack(ops[0]);
  }
}
