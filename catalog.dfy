/** The opcode catalog `code_names`: for each regular VM operation, the
    `sizeof` of its instruction structure and its 16-character mnemonic. */
module Catalog {
  import opened Format
  import opened Vm

  /** A row of the catalog. `size` names the structure whose `sizeof` the row
      holds; the layout in force gives the number. */
  datatype CodeName = CodeName(operation: Op, size: Struct, name: string)

  /** Every mnemonic is padded to this width, so operands line up. */
  const MNEMONIC_WIDTH: nat := 16

  /** The number of rows. */
  const CATALOG_SIZE: nat := 48

  /** The mnemonics, in the order of the rows. */
  const OBJECT_CREATE_NAME: string := "OBJECT CREATE   "
  const FUNCTION_CREATE_NAME: string := "FUNCTION CREATE "
  const REGEXP_CREATE_NAME: string := "REGEXP CREATE   "
  const PROPERTY_GET_NAME: string := "PROPERTY GET    "
  const PROPERTY_SET_NAME: string := "PROPERTY SET    "
  const PROPERTY_IN_NAME: string := "PROPERTY IN     "
  const PROPERTY_DELETE_NAME: string := "PROPERTY DELETE "
  const INSTANCE_OF_NAME: string := "INSTANCE OF     "
  const FUNCTION_NAME: string := "FUNCTION        "
  const CALL_NAME: string := "CALL            "
  const RETURN_NAME: string := "RETURN          "
  const STOP_NAME: string := "STOP            "
  const INCREMENT_NAME: string := "INC             "
  const DECREMENT_NAME: string := "DEC             "
  const POST_INCREMENT_NAME: string := "POST INC        "
  const POST_DECREMENT_NAME: string := "POST DEC        "
  const DELETE_NAME: string := "DELETE          "
  const VOID_NAME: string := "VOID            "
  const TYPE_OF_NAME: string := "TYPEOF          "
  const UNARY_PLUS_NAME: string := "PLUS            "
  const UNARY_NEGATION_NAME: string := "NEGATION        "
  const ADDITION_NAME: string := "ADD             "
  const SUBSTRACTION_NAME: string := "SUBSTRACT       "
  const MULTIPLICATION_NAME: string := "MULTIPLY        "
  const DIVISION_NAME: string := "DIVIDE          "
  const REMAINDER_NAME: string := "REMAINDER       "
  const LEFT_SHIFT_NAME: string := "LEFT SHIFT      "
  const RIGHT_SHIFT_NAME: string := "RIGHT SHIFT     "
  const UNSIGNED_RIGHT_SHIFT_NAME: string := "UNS RIGHT SHIFT "
  const LOGICAL_NOT_NAME: string := "LOGICAL NOT     "
  const LOGICAL_AND_NAME: string := "LOGICAL AND     "
  const LOGICAL_OR_NAME: string := "LOGICAL OR      "
  const BITWISE_NOT_NAME: string := "BINARY NOT      "
  const BITWISE_AND_NAME: string := "BINARY AND      "
  const BITWISE_XOR_NAME: string := "BINARY XOR      "
  const BITWISE_OR_NAME: string := "BINARY OR       "
  const EQUAL_NAME: string := "EQUAL           "
  const NOT_EQUAL_NAME: string := "NOT EQUAL       "
  const LESS_NAME: string := "LESS            "
  const LESS_OR_EQUAL_NAME: string := "LESS OR EQUAL   "
  const GREATER_NAME: string := "GREATER         "
  const GREATER_OR_EQUAL_NAME: string := "GREATER OR EQUAL"
  const STRICT_EQUAL_NAME: string := "STRICT EQUAL    "
  const STRICT_NOT_EQUAL_NAME: string := "STRICT NOT EQUAL"
  const MOVE_NAME: string := "MOVE            "
  const VALIDATE_NAME: string := "VALIDATE        "
  const THROW_NAME: string := "THROW           "
  const FINALLY_NAME: string := "FINALLY         "

  /** Row `i` of the table `code_names`, in the order the source lists them:
      an operation, the structure whose `sizeof` it occupies, and its
      mnemonic, 16 characters wide. */
  function Row(i: nat): (r: CodeName)
    requires i < CATALOG_SIZE
    ensures |r.name| == MNEMONIC_WIDTH
  {
    match i
    case 0 => CodeName(ObjectCreate, ObjectT, OBJECT_CREATE_NAME)
    case 1 => CodeName(FunctionCreate, FunctionCreateT, FUNCTION_CREATE_NAME)
    case 2 => CodeName(RegexpCreate, RegexpT, REGEXP_CREATE_NAME)
    case 3 => CodeName(PropertyGet, PropGetT, PROPERTY_GET_NAME)
    case 4 => CodeName(PropertySet, PropSetT, PROPERTY_SET_NAME)
    case 5 => CodeName(PropertyIn, Addr3T, PROPERTY_IN_NAME)
    case 6 => CodeName(PropertyDelete, Addr3T, PROPERTY_DELETE_NAME)
    case 7 => CodeName(InstanceOf, InstanceOfT, INSTANCE_OF_NAME)
    case 8 => CodeName(Function, FunctionT, FUNCTION_NAME)
    case 9 => CodeName(Call, CallT, CALL_NAME)
    case 10 => CodeName(Return, StopT, RETURN_NAME)
    case 11 => CodeName(Stop, StopT, STOP_NAME)
    case 12 => CodeName(Increment, Addr3T, INCREMENT_NAME)
    case 13 => CodeName(Decrement, Addr3T, DECREMENT_NAME)
    case 14 => CodeName(PostIncrement, Addr3T, POST_INCREMENT_NAME)
    case 15 => CodeName(PostDecrement, Addr3T, POST_DECREMENT_NAME)
    case 16 => CodeName(Delete, Addr2T, DELETE_NAME)
    case 17 => CodeName(Void, Addr2T, VOID_NAME)
    case 18 => CodeName(TypeOf, Addr2T, TYPE_OF_NAME)
    case 19 => CodeName(UnaryPlus, Addr2T, UNARY_PLUS_NAME)
    case 20 => CodeName(UnaryNegation, Addr2T, UNARY_NEGATION_NAME)
    case 21 => CodeName(Addition, Addr3T, ADDITION_NAME)
    case 22 => CodeName(Substraction, Addr3T, SUBSTRACTION_NAME)
    case 23 => CodeName(Multiplication, Addr3T, MULTIPLICATION_NAME)
    case 24 => CodeName(Division, Addr3T, DIVISION_NAME)
    case 25 => CodeName(Remainder, Addr3T, REMAINDER_NAME)
    case 26 => CodeName(LeftShift, Addr3T, LEFT_SHIFT_NAME)
    case 27 => CodeName(RightShift, Addr3T, RIGHT_SHIFT_NAME)
    case 28 => CodeName(UnsignedRightShift, Addr3T, UNSIGNED_RIGHT_SHIFT_NAME)
    case 29 => CodeName(LogicalNot, Addr2T, LOGICAL_NOT_NAME)
    case 30 => CodeName(LogicalAnd, Addr3T, LOGICAL_AND_NAME)
    case 31 => CodeName(LogicalOr, Addr3T, LOGICAL_OR_NAME)
    case 32 => CodeName(BitwiseNot, Addr2T, BITWISE_NOT_NAME)
    case 33 => CodeName(BitwiseAnd, Addr3T, BITWISE_AND_NAME)
    case 34 => CodeName(BitwiseXor, Addr3T, BITWISE_XOR_NAME)
    case 35 => CodeName(BitwiseOr, Addr3T, BITWISE_OR_NAME)
    case 36 => CodeName(Equal, Addr3T, EQUAL_NAME)
    case 37 => CodeName(NotEqual, Addr3T, NOT_EQUAL_NAME)
    case 38 => CodeName(Less, Addr3T, LESS_NAME)
    case 39 => CodeName(LessOrEqual, Addr3T, LESS_OR_EQUAL_NAME)
    case 40 => CodeName(Greater, Addr3T, GREATER_NAME)
    case 41 => CodeName(GreaterOrEqual, Addr3T, GREATER_OR_EQUAL_NAME)
    case 42 => CodeName(StrictEqual, Addr3T, STRICT_EQUAL_NAME)
    case 43 => CodeName(StrictNotEqual, Addr3T, STRICT_NOT_EQUAL_NAME)
    case 44 => CodeName(Move, MoveT, MOVE_NAME)
    case 45 => CodeName(Validate, ValidateT, VALIDATE_NAME)
    case 46 => CodeName(Throw, ThrowT, THROW_NAME)
    case _ => CodeName(Finally, FinallyT, FINALLY_NAME)  // row 47
  }


  /** The linear scan of the table for a tag, from row `k` on: the first
      row whose operation has tag `operation`, or `None` when no row does. */
  function LookupFrom(abi: Abi, operation: Word, k: nat): (r: Option<CodeName>)
    requires k <= CATALOG_SIZE
    ensures r.Some? ==> abi.tagOf(r.value.operation) == operation
    decreases CATALOG_SIZE - k
  {
    if k == CATALOG_SIZE then None
    else if abi.tagOf(Row(k).operation) == operation then Some(Row(k))
    else LookupFrom(abi, operation, k + 1)
  }

  /** When row `i` is the first row from `k` on with the tag, the scan
      returns row `i`. */
  lemma {:induction false} LookupFromFirst(abi: Abi, operation: Word, k: nat, i: nat)
    requires k <= i < CATALOG_SIZE
    requires abi.tagOf(Row(i).operation) == operation
    requires forall j :: k <= j < i ==> abi.tagOf(Row(j).operation) != operation
    ensures LookupFrom(abi, operation, k) == Some(Row(i))
    decreases i - k
  {
    var row := Row(k);
    if k < i {
      assert abi.tagOf(row.operation) != operation;
      LookupFromFirst(abi, operation, k + 1, i);
    }
  }

  /** The scan comes back empty exactly when no row from `k` on has the tag. */
  lemma LookupFromMissing(abi: Abi, operation: Word, k: nat)
    requires k <= CATALOG_SIZE
    ensures LookupFrom(abi, operation, k).None? <==>
              forall j :: k <= j < CATALOG_SIZE ==> abi.tagOf(Row(j).operation) != operation
  {
    if forall j :: k <= j < CATALOG_SIZE ==> abi.tagOf(Row(j).operation) != operation {
      LookupFromAbsent(abi, operation, k);
    } else {
      var i :| k <= i < CATALOG_SIZE && abi.tagOf(Row(i).operation) == operation;
      LookupFromPresent(abi, operation, k, i);
    }
  }

  lemma {:induction false} LookupFromAbsent(abi: Abi, operation: Word, k: nat)
    requires k <= CATALOG_SIZE
    requires forall j :: k <= j < CATALOG_SIZE ==> abi.tagOf(Row(j).operation) != operation
    ensures LookupFrom(abi, operation, k).None?
    decreases CATALOG_SIZE - k
  {
    if k < CATALOG_SIZE {
      var row := Row(k);
      assert abi.tagOf(row.operation) != operation;
      LookupFromAbsent(abi, operation, k + 1);
    }
  }

  lemma {:induction false} LookupFromPresent(abi: Abi, operation: Word, k: nat, i: nat)
    requires k <= i < CATALOG_SIZE
    requires abi.tagOf(Row(i).operation) == operation
    ensures LookupFrom(abi, operation, k).Some?
    decreases i - k
  {
    var row := Row(k);
    if abi.tagOf(row.operation) != operation {
      LookupFromPresent(abi, operation, k + 1, i);
    }
  }

  /** A row the scan finds carries a 16-character mnemonic. */
  lemma {:induction false} LookupFromAligned(abi: Abi, operation: Word, k: nat)
    requires k <= CATALOG_SIZE
    ensures LookupFrom(abi, operation, k).Some? ==>
              |LookupFrom(abi, operation, k).value.name| == MNEMONIC_WIDTH
    decreases CATALOG_SIZE - k
  {
    if k < CATALOG_SIZE {
      var row := Row(k);
      if abi.tagOf(row.operation) != operation {
        LookupFromAligned(abi, operation, k + 1);
      }
    }
  }

  /** The scan of the whole table, as `njs_disassemble` makes it: the row it
      finds, if any, carries the tag sought and a 16-character mnemonic. */
  function Lookup(abi: Abi, operation: Word): (r: Option<CodeName>)
    ensures r.Some? ==> abi.tagOf(r.value.operation) == operation && |r.value.name| == MNEMONIC_WIDTH
  {
    LookupFromAligned(abi, operation, 0);
    LookupFrom(abi, operation, 0)
  }

  /** The row that names a regular operation. */
  function IndexOf(op: Op): (i: nat)
    requires !IsSpecial(op)
    ensures i < CATALOG_SIZE && Row(i).operation == op
  {
    match op
    case ObjectCreate => 0
    case FunctionCreate => 1
    case RegexpCreate => 2
    case PropertyGet => 3
    case PropertySet => 4
    case PropertyIn => 5
    case PropertyDelete => 6
    case InstanceOf => 7
    case Function => 8
    case Call => 9
    case Return => 10
    case Stop => 11
    case Increment => 12
    case Decrement => 13
    case PostIncrement => 14
    case PostDecrement => 15
    case Delete => 16
    case Void => 17
    case TypeOf => 18
    case UnaryPlus => 19
    case UnaryNegation => 20
    case Addition => 21
    case Substraction => 22
    case Multiplication => 23
    case Division => 24
    case Remainder => 25
    case LeftShift => 26
    case RightShift => 27
    case UnsignedRightShift => 28
    case LogicalNot => 29
    case LogicalAnd => 30
    case LogicalOr => 31
    case BitwiseNot => 32
    case BitwiseAnd => 33
    case BitwiseXor => 34
    case BitwiseOr => 35
    case Equal => 36
    case NotEqual => 37
    case Less => 38
    case LessOrEqual => 39
    case Greater => 40
    case GreaterOrEqual => 41
    case StrictEqual => 42
    case StrictNotEqual => 43
    case Move => 44
    case Validate => 45
    case Throw => 46
    case Finally => 47
  }

  /** Every mnemonic is exactly 16 characters wide. */
  lemma MnemonicsAligned()
    ensures forall i :: 0 <= i < CATALOG_SIZE ==> |Row(i).name| == MNEMONIC_WIDTH
  {
  }

  /** No row names a special form. */
  lemma NoSpecialFormInCatalog()
    ensures forall i :: 0 <= i < CATALOG_SIZE ==> !IsSpecial(Row(i).operation)
  {
  }

  /** No operation has two rows. */
  lemma RowsDistinct()
    ensures forall i, j :: 0 <= i < j < CATALOG_SIZE ==> Row(i).operation != Row(j).operation
  {
    forall i | 0 <= i < CATALOG_SIZE
      ensures !IsSpecial(Row(i).operation) && IndexOf(Row(i).operation) == i
    {
      if i < 8 { RowsIndexed0(); }
      else if i < 16 { RowsIndexed1(); }
      else if i < 24 { RowsIndexed2(); }
      else if i < 32 { RowsIndexed3(); }
      else if i < 40 { RowsIndexed4(); }
      else { RowsIndexed5(); }
    }
  }

  // `RowsIndexed0` to `RowsIndexed5` state the fact `RowsDistinct` needs,
  // eight rows at a time: one lemma over all 48 rows is too large a proof
  // for the solver.

  lemma RowsIndexed0()
    ensures forall i :: 0 <= i < 8 ==> !IsSpecial(Row(i).operation) && IndexOf(Row(i).operation) == i
  {
  }

  lemma RowsIndexed1()
    ensures forall i :: 8 <= i < 16 ==> !IsSpecial(Row(i).operation) && IndexOf(Row(i).operation) == i
  {
  }

  lemma RowsIndexed2()
    ensures forall i :: 16 <= i < 24 ==> !IsSpecial(Row(i).operation) && IndexOf(Row(i).operation) == i
  {
  }

  lemma RowsIndexed3()
    ensures forall i :: 24 <= i < 32 ==> !IsSpecial(Row(i).operation) && IndexOf(Row(i).operation) == i
  {
  }

  lemma RowsIndexed4()
    ensures forall i :: 32 <= i < 40 ==> !IsSpecial(Row(i).operation) && IndexOf(Row(i).operation) == i
  {
  }

  lemma RowsIndexed5()
    ensures forall i :: 40 <= i < 48 ==> !IsSpecial(Row(i).operation) && IndexOf(Row(i).operation) == i
  {
  }

  /** A regular operation's tag finds that operation's own row. */
  lemma LookupRegular(abi: Abi, op: Op)
    requires abi.TagsDistinct()
    requires !IsSpecial(op)
    ensures Lookup(abi, abi.tagOf(op)) == Some(Row(IndexOf(op)))
  {
    var i := IndexOf(op);
    RowsDistinct();
    LookupFromFirst(abi, abi.tagOf(op), 0, i);
  }

  /** A special form's tag is in no row, so the scan comes back empty. */
  lemma LookupSpecial(abi: Abi, op: Op)
    requires abi.TagsDistinct()
    requires IsSpecial(op)
    ensures Lookup(abi, abi.tagOf(op)) == None
  {
    NoSpecialFormInCatalog();
    LookupFromMissing(abi, abi.tagOf(op), 0);
  }
}
