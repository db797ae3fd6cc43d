/** What the disassembler sees of the virtual machine: the operation tags
    that head every instruction, the instruction structures with their sizes
    and field offsets, and the memory holding a code object.

    In the VM an operation tag is the address of the C function that executes
    the instruction; here it is an opaque word, equal only to itself. Struct
    sizes and field offsets are whatever the C compiler chose, so they are
    parameters (an `Abi`) rather than numbers. */
module Vm {
  import opened Format

  /** The VM operations the disassembler names: those of the catalog and the
      ten special forms. */
  datatype Op =
    | ObjectCreate | FunctionCreate | RegexpCreate
    | PropertyGet | PropertySet | PropertyIn | PropertyDelete | InstanceOf
    | Function | Call | Return | Stop
    | Increment | Decrement | PostIncrement | PostDecrement
    | Delete | Void | TypeOf
    | UnaryPlus | UnaryNegation
    | Addition | Substraction | Multiplication | Division | Remainder
    | LeftShift | RightShift | UnsignedRightShift
    | LogicalNot | LogicalAnd | LogicalOr
    | BitwiseNot | BitwiseAnd | BitwiseXor | BitwiseOr
    | Equal | NotEqual | Less | LessOrEqual | Greater | GreaterOrEqual
    | StrictEqual | StrictNotEqual
    | Move | Validate
    | Throw | Finally
    // special forms
    | ArrayCreate | IfTrueJump | IfFalseJump | Jump | Method
    | PropertyEachStart | PropertyEach | TryStart | Catch | TryEnd

  /** The special forms, in the order the walker tests for them. */
  const SPECIAL_FORMS: seq<Op> :=
    [ArrayCreate, IfTrueJump, IfFalseJump, Jump, Method,
     PropertyEachStart, PropertyEach, TryStart, Catch, TryEnd]

  predicate IsSpecial(op: Op) {
    op.ArrayCreate? || op.IfTrueJump? || op.IfFalseJump? || op.Jump? || op.Method?
    || op.PropertyEachStart? || op.PropertyEach? || op.TryStart? || op.Catch? || op.TryEnd?
  }

  /** The position of a special form in the order of the tests. */
  function Rank(op: Op): (k: nat)
    requires IsSpecial(op)
    ensures k < |SPECIAL_FORMS| && SPECIAL_FORMS[k] == op
  {
    match op
    case ArrayCreate => 0
    case IfTrueJump => 1
    case IfFalseJump => 2
    case Jump => 3
    case Method => 4
    case PropertyEachStart => 5
    case PropertyEach => 6
    case TryStart => 7
    case Catch => 8
    case TryEnd => 9
  }

  /** The instruction structures whose `sizeof` the disassembler uses. */
  datatype Struct =
    | OperationT            // njs_vmcode_operation_t, the tag alone
    | Addr1T | Addr2T | Addr3T
    | ObjectT | FunctionCreateT | RegexpT | PropGetT | PropSetT | InstanceOfT
    | FunctionT | CallT | StopT | MoveT | ValidateT | ThrowT | FinallyT
    | ArrayT | CondJumpT | JumpT | MethodT | PropStartT | PropEachT
    | TryStartT | CatchT | TryEndT

  /** The operand fields the disassembler prints. */
  datatype Field =
    | Addr3Dst | Addr3Src1 | Addr3Src2
    | Addr2Dst | Addr2Src
    | Addr1Index
    | ArrayRetval | ArrayLength
    | CondJumpCond | CondJumpOffset
    | JumpOffset
    | MethodFunction | MethodObject | MethodMethod | MethodNargs
    | PropStartEach | PropStartObject | PropStartOffset
    | PropEachRetval | PropEachObject | PropEachEach | PropEachOffset
    | TryStartValue | TryStartOffset
    | CatchException | CatchOffset
    | TryEndOffset

  /** The layout the C compiler chose: the tag value of each operation,
      `sizeof` of each structure, and the offset of each field. */
  datatype Abi = Abi(tagOf: Op -> Word, sizeOf: Struct -> nat, offsetOf: Field -> nat) {

    /** Every structure starts with the operation tag, which takes room. */
    predicate SizesPositive() {
      sizeOf(OperationT) > 0 && forall s :: sizeOf(s) >= sizeOf(OperationT)
    }

    /** Distinct operations are distinct functions, at distinct addresses. */
    predicate TagsDistinct() {
      forall a, b :: tagOf(a) == tagOf(b) ==> a == b
    }
  }

  /** The process's memory, word-valued cells by position. The disassembler
      only reads it. */
  type Memory = nat -> Word

  /** The leading operation tag of the instruction at `p`. */
  function TagAt(mem: Memory, p: nat): Word {
    mem(p)
  }

  /** Field `f` of the instruction structure at `p`. */
  function Read(abi: Abi, mem: Memory, p: nat, f: Field): Word {
    mem(p + abi.offsetOf(f))
  }
}
