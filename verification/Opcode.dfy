/** The fields of an instruction word (include/letin/opcode.hpp). */
module Opcodes {
  const ARG_TYPE_LVAR: bv32 := 0
  const ARG_TYPE_ARG: bv32 := 1
  const ARG_TYPE_IMM: bv32 := 2
  const ARG_TYPE_GVAR: bv32 := 3
  const ARG_TYPE_POP: bv32 := 4
  const ARG_TYPE_EVAL: bv32 := 5

  function Opcode(instr: bv32, op: bv32, argType1: bv32, argType2: bv32, localVarCount: bv32): bv32 {
    (instr & 0xff) | ((op & 0xff) << 8) | ((argType1 & 0xf) << 16) | ((argType2 & 0xf) << 20) | ((localVarCount - 2) << 24)
  }

  function Instr(opcode: bv32): bv32 {
    opcode & 0xff
  }

  function Op(opcode: bv32): bv32 {
    (opcode >> 8) & 0xff
  }

  function ArgType1(opcode: bv32): bv32 {
    (opcode >> 16) & 0xf
  }

  function ArgType2(opcode: bv32): bv32 {
    (opcode >> 20) & 0xf
  }

  function LocalVarCount(opcode: bv32): bv32 {
    ((opcode >> 24) & 0xff) + 2
  }

  lemma InstrRoundTrips(instr: bv32, op: bv32, argType1: bv32, argType2: bv32, localVarCount: bv32)
    ensures Instr(Opcode(instr, op, argType1, argType2, localVarCount)) == instr & 0xff
  {
  }

  lemma OpRoundTrips(instr: bv32, op: bv32, argType1: bv32, argType2: bv32, localVarCount: bv32)
    ensures Op(Opcode(instr, op, argType1, argType2, localVarCount)) == op & 0xff
  {
  }

  lemma ArgType1RoundTrips(instr: bv32, op: bv32, argType1: bv32, argType2: bv32, localVarCount: bv32)
    ensures ArgType1(Opcode(instr, op, argType1, argType2, localVarCount)) == argType1 & 0xf
  {
  }

  lemma ArgType2RoundTrips(instr: bv32, op: bv32, argType1: bv32, argType2: bv32, localVarCount: bv32)
    ensures ArgType2(Opcode(instr, op, argType1, argType2, localVarCount)) == argType2 & 0xf
  {
  }

  /** Every field reads back as it was packed, the instruction and the operation up to eight bits,
      the argument types up to four. */
  lemma FieldsRoundTrip(instr: bv32, op: bv32, argType1: bv32, argType2: bv32, localVarCount: bv32)
    ensures var w := Opcode(instr, op, argType1, argType2, localVarCount);
            Instr(w) == instr & 0xff && Op(w) == op & 0xff && ArgType1(w) == argType1 & 0xf && ArgType2(w) == argType2 & 0xf
  {
    InstrRoundTrips(instr, op, argType1, argType2, localVarCount);
    OpRoundTrips(instr, op, argType1, argType2, localVarCount);
    ArgType1RoundTrips(instr, op, argType1, argType2, localVarCount);
    ArgType2RoundTrips(instr, op, argType1, argType2, localVarCount);
    hide Opcode, Instr, Op, ArgType1, ArgType2;
  }

  /** The number of local variables of a `lettuple` reads back exactly for 2 to 257. The compiler
      also accepts 258, which reads back as 2. */
  lemma LocalVarCountRoundTripsExactly(instr: bv32, op: bv32, argType1: bv32, argType2: bv32, localVarCount: bv32)
    ensures LocalVarCount(Opcode(instr, op, argType1, argType2, localVarCount)) == localVarCount
            <==> 2 <= localVarCount <= 257
  {
    var w := Opcode(instr, op, argType1, argType2, localVarCount);
    assert (w >> 24) & 0xff == (localVarCount - 2) & 0xff;
    assert ((localVarCount - 2) & 0xff) + 2 == localVarCount <==> 2 <= localVarCount <= 257;
  }

  lemma MostLocalVarsWrap(instr: bv32, op: bv32, argType1: bv32, argType2: bv32)
    ensures LocalVarCount(Opcode(instr, op, argType1, argType2, 258)) == 2
  {
    var w := Opcode(instr, op, argType1, argType2, 258);
    assert (w >> 24) & 0xff == 0;
  }
}
