/** The bytecode shared by the compiler and the virtual machine: one record
    per instruction with a 16-bit opcode `f`, a 16-bit signed level field `l`
    and a 32-bit signed argument `a`. */
module Instructions {
  import opened MachineInt

  datatype Instr = Instr(f: u16, l: i16, a: i32)

  // Opcodes.
  const INT: u16 := 0    // extend the frame by `a` words
  const LIT: u16 := 1    // push the literal `a`
  const LOD: u16 := 2    // push the variable at (l, a)
  const STO: u16 := 3    // pop into the variable at (l, a)
  const CAL: u16 := 4    // call the procedure at absolute address `a`
  const JMP: u16 := 5    // relative jump by `a`
  const JPC: u16 := 6    // pop; relative jump by `a` when the value is 0
  const OPR: u16 := 7    // arithmetic or comparison selected by `a`
  const RET: u16 := 8    // return, or stop in the main frame
  const LOR: u16 := 9    // replace the address on top by the word it names
  const STR: u16 := 10   // pop an address, pop a value, store it there
  const LBP: u16 := 11   // push the base pointer
  const WRT: u16 := 12   // pop and print
  const LOA: u16 := 13   // push the address of the variable at (l, a)
  const RAN_N: u16 := 14 // declared, no handler in the machine
  const RAN: u16 := 15   // declared, no handler in the machine

  // Operation selectors of OPR.
  const OP_ADD: i32 := 0
  const OP_SUB: i32 := 1
  const OP_MUL: i32 := 2
  const OP_DIV: i32 := 3
  const OP_NEG: i32 := 4
  const OP_LT: i32 := 5
  const OP_LE: i32 := 6
  const OP_EQ: i32 := 7
  const OP_NE: i32 := 8
  const OP_GE: i32 := 9
  const OP_GT: i32 := 10
  const OP_ODD: i32 := 11
}
