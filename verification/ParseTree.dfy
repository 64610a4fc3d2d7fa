/** The parse tree of a program (comp/parse_tree.hpp). Numbers are kept as the bits of their formats:
    a floating-point number as those of its single and of its double form. */
module ParseTrees {
  import opened Options
  import opened Bytes

  type Name = seq<Byte>
  type I64 = i: int | -0x8000_0000_0000_0000 <= i < 0x8000_0000_0000_0000

  datatype ArgumentValue =
    | IntImm(i: I64)
    | FloatImm(single: U32, double_: U64)
    | FunImm(fun: Name)
    | NativeFunImm(fun: Name)

  datatype Argument = Imm(v: ArgumentValue) | LVar(n: U32) | Arg(n: U32) | Ident(name: Name) | Pop | Eval(n: U32)

  datatype InstructionName =
    | LET | IN | RET | JC | JUMP | ARG | RETRY | LETTUPLE | THROW | PUSH | POP | RETHROW
    | UNKNOWN

  datatype Instruction = Instruction(instr: InstructionName, op: Option<string>, arg1: Option<Argument>, arg2: Option<Argument>,
                                     localVarCount: Option<bv32>)

  datatype Line = Line(label_: Option<Name>, instr: Option<Instruction>)

  datatype Function = Function(argCount: U32, lines: seq<Line>)

  /** An object, whose type is one of the codes of the image, or greater for an unknown name; the
      identity stands for its pointer. */
  datatype Object = Object(id: nat, type_: nat, elems: seq<Value>)

  datatype Value =
    | IntValue(i: I64)
    | FloatValue(single: U32, double_: U64)
    | RefValue(object_: Object)
    | FunIndex(fun: Name)
    | NativeFunIndex(fun: Name)

  /** What the annotations of a function come to. */
  datatype FunctionInfo = FunctionInfo(evalStrategy: U32, evalStrategyMask: U32, evalStrategyMask2: U32)

  datatype Definition =
    | FunctionDefinition(isPublic: bool, ident: Name, fun: Function, info: FunctionInfo)
    | VariableDefinition(isPublic: bool, ident: Name, value: Value)
    | EntryDefinition(ident: Name)

  datatype ValueType = IntType | FloatType | RefType | NoType

  /** An operation takes arguments of two types, or of none. */
  datatype OperationDescription = OperationDescription(op: bv32, argType1: ValueType, argType2: ValueType)

  /** The operations by their names, whether the program shall be relocatable, and the indexes of its
      functions and variables. */
  datatype Environment = Environment(ops: map<string, OperationDescription>, isRelocatable: bool,
                                     funs: map<Name, nat>, vars: map<Name, nat>)

  /** A name that is not defined gets the index 0 and a relocation in a relocatable program. */
  function IndexOf(env: Environment, indexes: map<Name, nat>, name: Name): Option<U32> {
    if name in indexes then Some(indexes[name] % TWO32) else if env.isRelocatable then Some(0) else None
  }

  function NativeIndex(env: Environment): Option<U32> {
    if env.isRelocatable then Some(0) else None
  }
}
