/** The compiler's bookkeeping records. Procedures live in one registry
    (an arena) in creation order; a procedure's parent, its sub-procedures
    and the two ends of a recorded call are positions in that registry. */
module Symbols {
  import opened MachineInt
  import opened Wrappers
  import opened Instructions

  /** `SVariable`: a name and its word offset in the procedure's frame. */
  datatype Variable = Variable(name: string, offset: u32)

  /** `SProcedure`. The main program has no parent, level 0 and the empty
      name; `address` is its entry point once the registry is laid out. */
  datatype Procedure = Procedure(
    parent: Option<nat>,
    level: i16,
    name: string,
    variables: seq<Variable>,
    subProcedures: seq<nat>,
    instructions: seq<Instr>,
    address: u32)

  /** `SCallIntruction`: the `CAL` at `offset` in procedure `procedure`
      that calls `callee`, `levelDiff` levels out. */
  datatype CallSite = CallSite(procedure: nat, offset: u32, callee: nat, levelDiff: i16)

  /** A procedure with no declarations, no code and no children yet. */
  function NewProcedure(parent: Option<nat>, level: i16, name: string): (p: Procedure)
    ensures p.variables == [] && p.subProcedures == [] && p.instructions == []
    ensures p.parent == parent && p.level == level && p.name == name
  {
    Procedure(parent, level, name, [], [], [], 0)
  }

  /** The frame layout the declarations keep: one instruction per declared
      name, and the i-th name at offset i + 3, just above the dynamic link,
      return address and static link (in `uint32_t` arithmetic). */
  predicate FrameConsistent(p: Procedure)
  {
    && |p.variables| == |p.instructions|
    && forall i :: 0 <= i < |p.variables| ==> p.variables[i].offset == ToU32(i + 3)
  }

  /** The frame offsets of a consistent procedure are pairwise distinct as
      long as there are fewer than 2^32 - 3 of them. */
  lemma OffsetsDistinct(p: Procedure, i: nat, j: nat)
    requires FrameConsistent(p) && |p.variables| + 3 <= TWO_32
    requires i < j < |p.variables|
    ensures p.variables[i].offset != p.variables[j].offset
    ensures p.variables[i].offset == i + 3
  {
  }
}
