/** Instructions in the compiler (the `generate_` functions of comp/impl_comp.cpp): what an instruction
    of the parse tree comes to, its words in the image, and what these are read as. */
module Instructions {
  import opened Options
  import opened Bytes
  import opened ParseTrees
  import opened Labels
  import opened Opcodes
  import F = ImageFormat

  const INSTR_LET: bv32 := 0
  const INSTR_IN: bv32 := 1
  const INSTR_RET: bv32 := 2
  const INSTR_JC: bv32 := 3
  const INSTR_JUMP: bv32 := 4
  const INSTR_ARG: bv32 := 5
  const INSTR_RETRY: bv32 := 6
  const INSTR_LETTUPLE: bv32 := 7
  const INSTR_THROW: bv32 := 8
  const INSTR_PUSH: bv32 := 9
  const INSTR_POP: bv32 := 10
  const INSTR_RETHROW: bv32 := 11

  const OP_ILOAD2: bv32 := 0x01
  const OP_FLOAD2: bv32 := 0x16

  datatype Operand =
    | LVarOperand(n: U32)
    | ArgOperand(n: U32)
    | ImmOperand(bits: U32)
    | GVarOperand(n: U32)
    | PopOperand
    | EvalOperand(n: U32)

  datatype Lowered = Lowered(instr: bv32, op: bv32, arg1: Operand, arg2: Operand, localVarCount: bv32)

  // ------------------------------------------------------------------ arguments

  /** `arg_to_format_arg` */
  function LowerArg(env: Environment, arg: Argument, ty: ValueType): Option<Operand> {
    if ty.NoType? then None
    else
      match arg
      case Imm(v) => LowerImm(env, v, ty)
      case LVar(n) => Some(LVarOperand(n))
      case Arg(n) => Some(ArgOperand(n))
      case Ident(name) => (match IndexOf(env, env.vars, name) case Some(i) => Some(GVarOperand(i)) case None => None)
      case Pop => Some(PopOperand)
      case Eval(n) => Some(EvalOperand(n))
  }

  function LowerImm(env: Environment, v: ArgumentValue, ty: ValueType): Option<Operand> {
    if ty.IntType? then
      match v
      case IntImm(i) => if -0x8000_0000 <= i < TWO32 then Some(ImmOperand(i % TWO32)) else None
      case FunImm(name) => (match IndexOf(env, env.funs, name) case Some(i) => Some(ImmOperand(i)) case None => None)
      case NativeFunImm(_) => (match NativeIndex(env) case Some(i) => Some(ImmOperand(i)) case None => None)
      case FloatImm(_, _) => None
    else if ty.FloatType? && v.FloatImm? then Some(ImmOperand(v.single))
    else None
  }

  /** An argument that must be there exactly if the operation takes one. */
  function LowerOptional(env: Environment, arg: Option<Argument>, ty: ValueType): Option<Operand> {
    match arg
    case Some(a) => LowerArg(env, a, ty)
    case None => if ty.NoType? then Some(ImmOperand(0)) else None
  }

  /** Loading a number of 64 bits takes one argument, whose halves become two. */
  function LowerArgs(env: Environment, instr: Instruction, desc: OperationDescription): Option<(Operand, Operand)> {
    if instr.arg1.Some? && instr.arg1.value.Imm? && instr.arg2.None? && desc.op == OP_ILOAD2 then
      var v := instr.arg1.value.v;
      if v.IntImm? then Some((ImmOperand(v.i / TWO32 % TWO32), ImmOperand(v.i % TWO32))) else None
    else if instr.arg1.Some? && instr.arg1.value.Imm? && instr.arg2.None? && desc.op == OP_FLOAD2 then
      var v := instr.arg1.value.v;
      if v.FloatImm? then Some((ImmOperand(v.double_ / TWO32 % TWO32), ImmOperand(v.double_ % TWO32))) else None
    else
      var arg1, arg2 := LowerOptional(env, instr.arg1, desc.argType1), LowerOptional(env, instr.arg2, desc.argType2);
      if arg1.Some? && arg2.Some? then Some((arg1.value, arg2.value)) else None
  }

  // ------------------------------------------------------------------ instructions

  function LocalVars(instr: Instruction): Option<bv32> {
    if instr.instr.LETTUPLE? then
      if instr.localVarCount.Some? && 2 <= instr.localVarCount.value <= 258 then instr.localVarCount else None
    else if instr.localVarCount.None? then Some(2) else None
  }

  function LowerWithOp(env: Environment, instr: Instruction, code: bv32): Option<Lowered> {
    if instr.op.None? || instr.op.value !in env.ops then None
    else
      var desc := env.ops[instr.op.value];
      var args, count := LowerArgs(env, instr, desc), LocalVars(instr);
      if args.Some? && count.Some? then Some(Lowered(code, desc.op, args.value.0, args.value.1, count.value)) else None
  }

  function LowerWithoutOp(instr: Instruction, code: bv32): Option<Lowered> {
    if instr.op.Some? || instr.arg1.Some? || instr.arg2.Some? then None
    else Some(Lowered(code, 0, ImmOperand(0), ImmOperand(0), 2))
  }

  function LowerJump(labels: map<Name, nat>, ip: nat, instr: Instruction): Option<Lowered> {
    if instr.op.Some? || instr.arg1.None? || !instr.arg1.value.Ident? || instr.arg1.value.name !in labels || instr.arg2.Some? then None
    else Some(Lowered(INSTR_JUMP, 0, ImmOperand(Distance(labels[instr.arg1.value.name], ip)), ImmOperand(0), 2))
  }

  function LowerJc(env: Environment, labels: map<Name, nat>, ip: nat, instr: Instruction): Option<Lowered> {
    if instr.op.Some? || instr.arg1.None? || instr.arg2.None? || !instr.arg2.value.Ident? || instr.arg2.value.name !in labels then None
    else
      match LowerArg(env, instr.arg1.value, IntType)
      case None => None
      case Some(arg) => Some(Lowered(INSTR_JC, 0, arg, ImmOperand(Distance(labels[instr.arg2.value.name], ip)), 2))
  }

  function LowerThrow(env: Environment, instr: Instruction, code: bv32): Option<Lowered> {
    if instr.op.Some? || instr.arg1.None? || instr.arg2.Some? then None
    else
      match LowerArg(env, instr.arg1.value, IntType)
      case None => None
      case Some(arg) => Some(Lowered(code, 0, arg, ImmOperand(0), 2))
  }

  function LowerPop(instr: Instruction): Option<Lowered> {
    if instr.op.Some? || instr.arg1.None? || !instr.arg1.value.Eval? || instr.arg2.Some? then None
    else Some(Lowered(INSTR_POP, 0, ImmOperand(instr.arg1.value.n), ImmOperand(0), 2))
  }

  /** `generate_instr`, for the instruction of some number in its function. */
  function Lower(env: Environment, labels: map<Name, nat>, ip: nat, instr: Instruction): Option<Lowered> {
    match instr.instr
    case LET => LowerWithOp(env, instr, INSTR_LET)
    case IN => LowerWithoutOp(instr, INSTR_IN)
    case RET => LowerWithOp(env, instr, INSTR_RET)
    case JC => LowerJc(env, labels, ip, instr)
    case JUMP => LowerJump(labels, ip, instr)
    case ARG => LowerWithOp(env, instr, INSTR_ARG)
    case RETRY => LowerWithoutOp(instr, INSTR_RETRY)
    case LETTUPLE => LowerWithOp(env, instr, INSTR_LETTUPLE)
    case THROW => LowerThrow(env, instr, INSTR_THROW)
    case PUSH => LowerWithOp(env, instr, INSTR_PUSH)
    case POP => LowerPop(instr)
    case RETHROW => LowerThrow(env, instr, INSTR_RETHROW)
    case UNKNOWN => None
  }

  // ------------------------------------------------------------------ words

  function ArgTypeOf(a: Operand): bv32 {
    match a
    case LVarOperand(_) => ARG_TYPE_LVAR
    case ArgOperand(_) => ARG_TYPE_ARG
    case ImmOperand(_) => ARG_TYPE_IMM
    case GVarOperand(_) => ARG_TYPE_GVAR
    case PopOperand => ARG_TYPE_POP
    case EvalOperand(_) => ARG_TYPE_EVAL
  }

  function BitsOf(a: Operand): U32 {
    match a
    case LVarOperand(n) => n
    case ArgOperand(n) => n
    case ImmOperand(bits) => bits
    case GVarOperand(n) => n
    case PopOperand => 0
    case EvalOperand(n) => n
  }

  function Word(w: bv32): U32 {
    w as int
  }

  function OfWord(n: U32): bv32 {
    n as bv32
  }

  lemma WordBack(w: bv32)
    ensures OfWord(Word(w)) == w
  {
  }

  function Encode(l: Lowered): F.Instruction {
    F.Instruction(Word(Opcode(l.instr, l.op, ArgTypeOf(l.arg1), ArgTypeOf(l.arg2), l.localVarCount)), BitsOf(l.arg1), BitsOf(l.arg2))
  }

  function OperandOf(argType: bv32, bits: U32): Option<Operand> {
    if argType == ARG_TYPE_LVAR then Some(LVarOperand(bits))
    else if argType == ARG_TYPE_ARG then Some(ArgOperand(bits))
    else if argType == ARG_TYPE_IMM then Some(ImmOperand(bits))
    else if argType == ARG_TYPE_GVAR then Some(GVarOperand(bits))
    else if argType == ARG_TYPE_POP then Some(PopOperand)
    else if argType == ARG_TYPE_EVAL then Some(EvalOperand(bits))
    else None
  }

  /** What the interpreter takes an instruction for. */
  function Decode(i: F.Instruction): Option<Lowered> {
    var w := OfWord(i.opcode);
    var arg1, arg2 := OperandOf(ArgType1(w), i.arg1), OperandOf(ArgType2(w), i.arg2);
    if arg1.Some? && arg2.Some? then Some(Lowered(Instr(w), Op(w), arg1.value, arg2.value, LocalVarCount(w))) else None
  }

  lemma OperandBack(a: Operand)
    ensures OperandOf(ArgTypeOf(a) & 0xf, BitsOf(a)) == Some(a)
  {
  }

  lemma CodesFit(c: bv32)
    requires c < 256
    ensures c & 0xff == c
  {
  }

  lemma FieldsBack(l: Lowered)
    requires l.instr < 256 && l.op < 256
    ensures var w := OfWord(Encode(l).opcode);
            && Instr(w) == l.instr && Op(w) == l.op && ArgType1(w) == ArgTypeOf(l.arg1) & 0xf
            && ArgType2(w) == ArgTypeOf(l.arg2) & 0xf && (LocalVarCount(w) == l.localVarCount <==> 2 <= l.localVarCount <= 257)
  {
    WordBack(Opcode(l.instr, l.op, ArgTypeOf(l.arg1), ArgTypeOf(l.arg2), l.localVarCount));
    FieldsRoundTrip(l.instr, l.op, ArgTypeOf(l.arg1), ArgTypeOf(l.arg2), l.localVarCount);
    LocalVarCountRoundTripsExactly(l.instr, l.op, ArgTypeOf(l.arg1), ArgTypeOf(l.arg2), l.localVarCount);
    CodesFit(l.instr);
    CodesFit(l.op);
    hide *;
  }

  lemma DecodeIs(i: F.Instruction, arg1: Operand, arg2: Operand)
    requires OperandOf(ArgType1(OfWord(i.opcode)), i.arg1) == Some(arg1) && OperandOf(ArgType2(OfWord(i.opcode)), i.arg2) == Some(arg2)
    ensures var w := OfWord(i.opcode); Decode(i) == Some(Lowered(Instr(w), Op(w), arg1, arg2, LocalVarCount(w)))
  {
    hide Instr, Op, ArgType1, ArgType2, LocalVarCount, OperandOf, OfWord;
  }

  /** A word is read as the instruction that it was made from, exactly for 2 to 257 local variables. */
  lemma InstructionRoundTripsExactly(l: Lowered)
    requires l.instr < 256 && l.op < 256
    ensures Decode(Encode(l)) == Some(l) <==> 2 <= l.localVarCount <= 257
    ensures Decode(Encode(l)).Some? && Decode(Encode(l)).value.(localVarCount := l.localVarCount) == l
  {
    FieldsBack(l);
    OperandBack(l.arg1);
    OperandBack(l.arg2);
    assert Encode(l).arg1 == BitsOf(l.arg1) && Encode(l).arg2 == BitsOf(l.arg2);
    hide *;
    DecodeIs(Encode(l), l.arg1, l.arg2);
  }

  // ------------------------------------------------------------------ what is generated

  /** The label of a jump. */
  function TargetOf(instr: Instruction): Option<Name> {
    if instr.instr.JUMP? && instr.arg1.Some? && instr.arg1.value.Ident? then Some(instr.arg1.value.name)
    else if instr.instr.JC? && instr.arg2.Some? && instr.arg2.value.Ident? then Some(instr.arg2.value.name)
    else None
  }

  /** How far a jump jumps. */
  function OffsetOf(l: Lowered): Option<U32> {
    if l.instr == INSTR_JUMP && l.arg1.ImmOperand? then Some(l.arg1.bits)
    else if l.instr == INSTR_JC && l.arg2.ImmOperand? then Some(l.arg2.bits)
    else None
  }

  /** Jumps have a target that is there, nothing else has one. */
  lemma LoweredJumps(env: Environment, labels: map<Name, nat>, ip: nat, instr: Instruction)
    requires Lower(env, labels, ip, instr).Some?
    ensures TargetOf(instr).Some? <==> instr.instr.JUMP? || instr.instr.JC?
    ensures TargetOf(instr).Some? ==> TargetOf(instr).value in labels
    ensures OffsetOf(Lower(env, labels, ip, instr).value)
            == if TargetOf(instr).Some? then Some(Distance(labels[TargetOf(instr).value], ip)) else None
  {
    hide LowerArg, LowerArgs, Distance, LocalVars;
  }

  /** The operations have codes of eight bits. */
  ghost predicate OpsFit(env: Environment) {
    forall name :: name in env.ops ==> env.ops[name].op < 256
  }

  lemma LoweredWithOpFits(env: Environment, instr: Instruction, code: bv32)
    requires OpsFit(env) && LowerWithOp(env, instr, code).Some?
    ensures var l := LowerWithOp(env, instr, code).value; l.instr == code && l.op < 256 && Some(l.localVarCount) == LocalVars(instr)
  {
    hide LowerArgs, LocalVars;
  }

  lemma LoweredFits(env: Environment, labels: map<Name, nat>, ip: nat, instr: Instruction)
    requires OpsFit(env) && Lower(env, labels, ip, instr).Some?
    ensures var l := Lower(env, labels, ip, instr).value;
            l.instr < 256 && l.op < 256 && l.localVarCount == if instr.instr.LETTUPLE? then instr.localVarCount.value else 2
  {
    hide LowerArg, LowerWithOp, Distance, OpsFit;
    match instr.instr {
      case LET => LoweredWithOpFits(env, instr, INSTR_LET);
      case RET => LoweredWithOpFits(env, instr, INSTR_RET);
      case ARG => LoweredWithOpFits(env, instr, INSTR_ARG);
      case LETTUPLE => LoweredWithOpFits(env, instr, INSTR_LETTUPLE);
      case PUSH => LoweredWithOpFits(env, instr, INSTR_PUSH);
      case _ =>
    }
  }
}
