/** Decoding one instruction: the body of the walker's loop, lines 189-333
    of njs_disassembler.c, as a function from the cursor to the line printed
    and the number of bytes the cursor moves. */
module Decoder {
  import opened Format
  import opened Vm
  import opened Catalog
  import opened Listing

  /** The ten tests for special forms, made in a fixed order before the
      catalog is scanned: the first special form whose tag is `operation`. */
  function SpecialForm(abi: Abi, operation: Word): (r: Option<Op>)
    ensures r.Some? ==> IsSpecial(r.value) && abi.tagOf(r.value) == operation
    ensures r.Some? ==> forall j :: 0 <= j < Rank(r.value) ==> abi.tagOf(SPECIAL_FORMS[j]) != operation
    ensures r.None? <==> forall op :: IsSpecial(op) ==> abi.tagOf(op) != operation
  {
    if operation == abi.tagOf(ArrayCreate) then Some(ArrayCreate)
    else if operation == abi.tagOf(IfTrueJump) then Some(IfTrueJump)
    else if operation == abi.tagOf(IfFalseJump) then Some(IfFalseJump)
    else if operation == abi.tagOf(Jump) then Some(Jump)
    else if operation == abi.tagOf(Method) then Some(Method)
    else if operation == abi.tagOf(PropertyEachStart) then Some(PropertyEachStart)
    else if operation == abi.tagOf(PropertyEach) then Some(PropertyEach)
    else if operation == abi.tagOf(TryStart) then Some(TryStart)
    else if operation == abi.tagOf(Catch) then Some(Catch)
    else if operation == abi.tagOf(TryEnd) then Some(TryEnd)
    else None
  }

  /** The structure of a special form, whose `sizeof` the cursor advances by. */
  function SpecialStruct(op: Op): Struct
    requires IsSpecial(op)
  {
    match op
    case ArrayCreate => ArrayT
    case IfTrueJump | IfFalseJump => CondJumpT
    case Jump => JumpT
    case Method => MethodT
    case PropertyEachStart => PropStartT
    case PropertyEach => PropEachT
    case TryStart => TryStartT
    case Catch => CatchT
    case TryEnd => TryEndT
  }

  /** The fields of a special form, as its `printf` takes them. Each form
      prints a line of its own kind, never a catalog or `UNKNOWN` line. */
  function DecodeSpecial(abi: Abi, mem: Memory, p: nat, op: Op): (r: Line)
    requires IsSpecial(op)
    ensures r.ArrayCreateLine? <==> op == ArrayCreate
    ensures r.JumpIfTrueLine? <==> op == IfTrueJump
    ensures r.JumpIfFalseLine? <==> op == IfFalseJump
    ensures r.JumpLine? <==> op == Jump
    ensures r.MethodLine? <==> op == Method
    ensures r.PropertyStartLine? <==> op == PropertyEachStart
    ensures r.PropertyEachLine? <==> op == PropertyEach
    ensures r.TryStartLine? <==> op == TryStart
    ensures r.CatchLine? <==> op == Catch
    ensures r.TryEndLine? <==> op == TryEnd
  {
    match op
    case ArrayCreate =>
      ArrayCreateLine(Read(abi, mem, p, ArrayRetval), Signed(Read(abi, mem, p, ArrayLength)))
    case IfTrueJump =>
      JumpIfTrueLine(Read(abi, mem, p, CondJumpCond), Signed(Read(abi, mem, p, CondJumpOffset)))
    case IfFalseJump =>
      JumpIfFalseLine(Read(abi, mem, p, CondJumpCond), Signed(Read(abi, mem, p, CondJumpOffset)))
    case Jump =>
      JumpLine(Signed(Read(abi, mem, p, JumpOffset)))
    case Method =>
      MethodLine(Read(abi, mem, p, MethodFunction), Read(abi, mem, p, MethodObject),
                 Read(abi, mem, p, MethodMethod), Signed(Read(abi, mem, p, MethodNargs)))
    case PropertyEachStart =>
      PropertyStartLine(Read(abi, mem, p, PropStartEach), Read(abi, mem, p, PropStartObject),
                        Signed(Read(abi, mem, p, PropStartOffset)))
    case PropertyEach =>
      PropertyEachLine(Read(abi, mem, p, PropEachRetval), Read(abi, mem, p, PropEachObject),
                       Read(abi, mem, p, PropEachEach), Signed(Read(abi, mem, p, PropEachOffset)))
    case TryStart =>
      TryStartLine(Read(abi, mem, p, TryStartValue), Signed(Read(abi, mem, p, TryStartOffset)))
    case Catch =>
      CatchLine(Read(abi, mem, p, CatchException), Signed(Read(abi, mem, p, CatchOffset)))
    case TryEnd =>
      TryEndLine(Signed(Read(abi, mem, p, TryEndOffset)))
  }

  /** A catalog instruction is shown as 3-, 2- or 1-address by comparing the
      row's size with those three structures' sizes, in that order; a size
      matching none of them prints nothing. */
  function DecodeRegular(abi: Abi, mem: Memory, p: nat, row: CodeName): (r: Option<Line>)
    ensures r.Some? ==> (r.value.Code3Line? || r.value.Code2Line? || r.value.Code1Line?) && r.value.name == row.name
    ensures r.Some? && r.value.Code3Line? <==> abi.sizeOf(row.size) == abi.sizeOf(Addr3T)
    ensures r.Some? && r.value.Code2Line? <==>
              abi.sizeOf(row.size) != abi.sizeOf(Addr3T) && abi.sizeOf(row.size) == abi.sizeOf(Addr2T)
    ensures r.None? <==>
              abi.sizeOf(row.size) !in {abi.sizeOf(Addr3T), abi.sizeOf(Addr2T), abi.sizeOf(Addr1T)}
  {
    var size := abi.sizeOf(row.size);
    if size == abi.sizeOf(Addr3T) then
      Some(Code3Line(row.name, Read(abi, mem, p, Addr3Dst), Read(abi, mem, p, Addr3Src1),
                     Read(abi, mem, p, Addr3Src2)))
    else if size == abi.sizeOf(Addr2T) then
      Some(Code2Line(row.name, Read(abi, mem, p, Addr2Dst), Read(abi, mem, p, Addr2Src)))
    else if size == abi.sizeOf(Addr1T) then
      Some(Code1Line(row.name, Read(abi, mem, p, Addr1Index)))
    else
      None
  }

  /** What one pass of the loop does: the line it prints, if any, and how far
      the cursor moves. */
  datatype Decoded = Decoded(line: Option<Line>, size: nat)

  /** The instruction at `p`, decoded. The cursor always moves forward, by at
      least the width of a tag; only a catalog row whose size is none of the
      three address sizes prints nothing. */
  function Step(abi: Abi, mem: Memory, p: nat): (d: Decoded)
    requires abi.SizesPositive()
    ensures d.size >= abi.sizeOf(OperationT) > 0
    ensures d.line.None? ==>
              Lookup(abi, TagAt(mem, p)).Some?
              && d.size != abi.sizeOf(Addr3T) && d.size != abi.sizeOf(Addr2T) && d.size != abi.sizeOf(Addr1T)
  {
    var operation := TagAt(mem, p);
    match SpecialForm(abi, operation)
    case Some(op) =>
      Decoded(Some(DecodeSpecial(abi, mem, p, op)), abi.sizeOf(SpecialStruct(op)))
    case None =>
      match Lookup(abi, operation)
      case Some(row) =>
        Decoded(DecodeRegular(abi, mem, p, row), abi.sizeOf(row.size))
      case None =>
        Decoded(Some(UnknownLine(operation)), abi.sizeOf(OperationT))
  }

  /** An instruction headed by a special form's tag is decoded by that form's
      own branch, advances by that form's own size, and never reaches the
      catalog scan. */
  lemma SpecialFormsFirst(abi: Abi, mem: Memory, p: nat, op: Op)
    requires abi.SizesPositive() && abi.TagsDistinct()
    requires IsSpecial(op) && TagAt(mem, p) == abi.tagOf(op)
    ensures SpecialForm(abi, TagAt(mem, p)) == Some(op)
    ensures Lookup(abi, TagAt(mem, p)) == None
    ensures Step(abi, mem, p) == Decoded(Some(DecodeSpecial(abi, mem, p, op)), abi.sizeOf(SpecialStruct(op)))
  {
    LookupSpecial(abi, op);
  }

  /** An instruction headed by a regular operation's tag is decoded through
      that operation's own catalog row: the cursor advances by exactly the
      row's size, and the line is the 3-, 2- or 1-address form the size
      selects, or nothing when the size is none of those. */
  lemma CatalogDispatch(abi: Abi, mem: Memory, p: nat, op: Op)
    requires abi.SizesPositive() && abi.TagsDistinct()
    requires !IsSpecial(op) && TagAt(mem, p) == abi.tagOf(op)
    ensures var row := Row(IndexOf(op));
            var d := Step(abi, mem, p);
            && row.operation == op
            && d.size == abi.sizeOf(row.size)
            && (d.size == abi.sizeOf(Addr3T) ==>
                 d.line == Some(Code3Line(row.name, Read(abi, mem, p, Addr3Dst),
                                          Read(abi, mem, p, Addr3Src1), Read(abi, mem, p, Addr3Src2))))
            && (d.size != abi.sizeOf(Addr3T) && d.size == abi.sizeOf(Addr2T) ==>
                 d.line == Some(Code2Line(row.name, Read(abi, mem, p, Addr2Dst), Read(abi, mem, p, Addr2Src))))
            && (d.size != abi.sizeOf(Addr3T) && d.size != abi.sizeOf(Addr2T) && d.size == abi.sizeOf(Addr1T) ==>
                 d.line == Some(Code1Line(row.name, Read(abi, mem, p, Addr1Index))))
            && (d.line.None? <==>
                 d.size != abi.sizeOf(Addr3T) && d.size != abi.sizeOf(Addr2T) && d.size != abi.sizeOf(Addr1T))
  {
    LookupRegular(abi, op);
  }

  /** A tag that is no operation's tag prints `UNKNOWN` with the tag and
      advances by the width of one tag. */
  lemma UnknownTag(abi: Abi, mem: Memory, p: nat)
    requires abi.SizesPositive()
    requires forall op :: abi.tagOf(op) != TagAt(mem, p)
    ensures Step(abi, mem, p) == Decoded(Some(UnknownLine(TagAt(mem, p))), abi.sizeOf(OperationT))
  {
    LookupFromMissing(abi, TagAt(mem, p), 0);
  }

  /** Every line a pass prints that shows a catalog name shows it 16
      characters wide, so its operands start in the same column as those of
      the special forms. */
  lemma StepAligned(abi: Abi, mem: Memory, p: nat)
    requires abi.SizesPositive()
    ensures Step(abi, mem, p).line.Some? ==> NameAligned(Step(abi, mem, p).line.value)
  {
    var operation := TagAt(mem, p);
    match SpecialForm(abi, operation)
    case Some(_) =>
    case None =>
      LookupFromAligned(abi, operation, 0);
  }
}
