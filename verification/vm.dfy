/** The PL/0 stack machine: a program counter, a base pointer, a stack
    pointer, one flat stack of 32-bit words and the program. Each activation
    record starts with three words: the dynamic link (the caller's base
    pointer), the return address and the static link (the base of the
    lexically enclosing frame). */
module VirtualMachine {
  import opened MachineInt
  import opened Wrappers
  import opened Instructions

  /** The stack is allocated once with this many words. */
  const StackCapacity: nat := 1024 * 1024

  datatype State = State(
    pc: u32,
    bp: u32,
    sp: u32,
    stack: seq<i32>,
    program: seq<Instr>,
    output: seq<i32>)

  /** Why execution stops abnormally. The implementation checks only the two
      opcode fields; every other fault stands for an unchecked access that
      would leave the stack or the program. */
  datatype Fault =
    | StackOutOfRange(index: int)
    | PcOutOfRange(pc: u32)
    | UnknownOpr(oprCode: i32)
    | UnknownInstruction(opcode: u16)
    | DivisionFault

  datatype Outcome = Running(state: State) | Halted(state: State) | Failed(fault: Fault)

  datatype Popped = Popped(state: State, value: i32)

  /** A state whose stack has the size the machine allocates. */
  predicate Valid(s: State)
  {
    |s.stack| == StackCapacity && s.sp <= |s.stack| && s.bp < |s.stack|
  }

  function ReadAt(stack: seq<i32>, index: int): (r: Result<i32, Fault>)
    ensures r.Success? <==> 0 <= index < |stack|
    ensures r.Success? ==> r.value == stack[index]
  {
    if 0 <= index < |stack| then Success(stack[index]) else Failure(StackOutOfRange(index))
  }

  /** `Push`: write the word at the stack pointer, then advance it. */
  function Push(s: State, v: i32): (r: Result<State, Fault>)
    ensures r.Success? <==> s.sp < |s.stack|
    ensures r.Success? ==> |r.value.stack| == |s.stack|
    ensures r.Success? ==> r.value.sp == ToU32(s.sp + 1) && r.value.stack[s.sp] == v
    ensures r.Success? ==> forall i :: 0 <= i < |s.stack| && i != s.sp ==> r.value.stack[i] == s.stack[i]
    ensures r.Success? ==> r.value.(stack := s.stack, sp := s.sp) == s
  {
    if s.sp < |s.stack| then Success(s.(stack := s.stack[s.sp := v], sp := ToU32(s.sp + 1)))
    else Failure(StackOutOfRange(s.sp))
  }

  /** `Pop`: step the stack pointer back, then read the word there. */
  function Pop(s: State): (r: Result<Popped, Fault>)
    ensures r.Success? <==> ToU32(s.sp - 1) < |s.stack|
    ensures r.Success? ==> r.value.state == s.(sp := ToU32(s.sp - 1))
    ensures r.Success? ==> r.value.value == s.stack[ToU32(s.sp - 1)]
  {
    var sp := ToU32(s.sp - 1);
    if sp < |s.stack| then Success(Popped(s.(sp := sp), s.stack[sp]))
    else Failure(StackOutOfRange(sp))
  }

  function Write(s: State, index: u32, v: i32): (r: Result<State, Fault>)
    ensures r.Success? <==> index < |s.stack|
    ensures r.Success? ==> r.value == s.(stack := s.stack[index := v])
  {
    if index < |s.stack| then Success(s.(stack := s.stack[index := v]))
    else Failure(StackOutOfRange(index))
  }

  /** Follows `k` static links from `b` in `uint32_t` arithmetic, as
      `GetVariableAddress` does. */
  function WalkU32(stack: seq<i32>, b: u32, k: nat): Result<u32, Fault>
    decreases k
  {
    if k == 0 then Success(b)
    else
      var index := ToU32(b + 2);
      if index < |stack| then WalkU32(stack, ToU32(stack[index]), k - 1)
      else Failure(StackOutOfRange(index))
  }

  /** Follows `k` static links from `x` in `int32_t` arithmetic, as the
      call instruction does. */
  function WalkI32(stack: seq<i32>, x: i32, k: nat): Result<i32, Fault>
    decreases k
  {
    if k == 0 then Success(x)
    else if 0 <= x + 2 < |stack| then WalkI32(stack, stack[x + 2], k - 1)
    else Failure(StackOutOfRange(x + 2))
  }

  /** `GetVariableAddress`: a non-negative level difference addresses the
      current frame; a level difference of -k first follows k static links. */
  function GetVariableAddress(s: State, levelDiff: i16, offset: u32): (r: Result<u32, Fault>)
    ensures levelDiff >= 0 ==> r == Success(ToU32(s.bp + offset))
    ensures levelDiff < 0 && WalkU32(s.stack, s.bp, -(levelDiff as int)).Success? ==>
      r == Success(ToU32(WalkU32(s.stack, s.bp, -(levelDiff as int)).value + offset))
    ensures levelDiff < 0 && WalkU32(s.stack, s.bp, -(levelDiff as int)).Failure? ==> r.Failure?
  {
    if levelDiff >= 0 then Success(ToU32(s.bp + offset))
    else
      var b :- WalkU32(s.stack, s.bp, -(levelDiff as int));
      Success(ToU32(b + offset))
  }

  function ExecINT(s: State, ins: Instr): Result<State, Fault>
  {
    Success(s.(sp := ToU32(s.sp + ins.a)))
  }

  function ExecLIT(s: State, ins: Instr): Result<State, Fault>
  {
    Push(s, ins.a)
  }

  function ExecLOD(s: State, ins: Instr): Result<State, Fault>
  {
    var address :- GetVariableAddress(s, ins.l, ToU32(ins.a));
    var v :- ReadAt(s.stack, address);
    Push(s, v)
  }

  function ExecSTO(s: State, ins: Instr): Result<State, Fault>
  {
    var address :- GetVariableAddress(s, ins.l, ToU32(ins.a));
    var p :- Pop(s);
    Write(p.state, address, p.value)
  }

  /** The number of static links the call instruction follows from the
      caller's base pointer to find the callee's static link; level
      difference 1 uses the caller's base pointer itself. */
  function LinkHops(levelDiff: i16): nat
  {
    if levelDiff == 1 then 0
    else if levelDiff < 0 then 1 - levelDiff
    else 1
  }

  /** The static link of a new frame, computed from the caller's base
      pointer on the stack as it is after the first two pushes. */
  function CalleeStaticLink(stack: seq<i32>, bp: u32, levelDiff: i16): Result<i32, Fault>
  {
    if levelDiff == 0 then ReadAt(stack, ToU32(bp + 2))
    else if levelDiff == 1 then Success(ToI32(bp))
    else WalkI32(stack, ToI32(bp), (if levelDiff < 0 then -(levelDiff as int) else 0) + 1)
  }

  function ExecCAL(s: State, ins: Instr): Result<State, Fault>
  {
    var s1 :- Push(s, ToI32(s.bp));
    var s2 :- Push(s1, ToI32(ToU32(s.pc + 1)));
    var sl :- CalleeStaticLink(s2.stack, s.bp, ins.l);
    var s3 :- Push(s2, sl);
    Success(s3.(bp := ToU32(s3.sp - 3), pc := ToU32(ins.a - 1)))
  }

  function ExecJMP(s: State, ins: Instr): Result<State, Fault>
  {
    Success(s.(pc := ToU32(s.pc + ins.a - 1)))
  }

  function ExecJPC(s: State, ins: Instr): Result<State, Fault>
  {
    var p :- Pop(s);
    if p.value == 0 then Success(p.state.(pc := ToU32(s.pc + ins.a - 1)))
    else Success(p.state)
  }

  function Bool(b: bool): i32 { if b then 1 else 0 }

  /** Pops the right operand, then the left one, and pushes `op(left, right)`. */
  function Binary(s: State, op: (i32, i32) -> Result<i32, Fault>): Result<State, Fault>
  {
    var right :- Pop(s);
    var left :- Pop(right.state);
    var v :- op(left.value, right.value);
    Push(left.state, v)
  }

  function Unary(s: State, op: i32 -> i32): Result<State, Fault>
  {
    var p :- Pop(s);
    Push(p.state, op(p.value))
  }

  /** C++ division traps on a zero divisor and on `INT32_MIN / -1`. */
  function Divide(a: i32, b: i32): Result<i32, Fault>
  {
    if b == 0 || (a == INT32_MIN && b == -1) then Failure(DivisionFault)
    else Success(ToI32(TruncDiv(a, b)))
  }

  // The arithmetic of OPR; signed overflow wraps around.
  function Add(a: i32, b: i32): Result<i32, Fault> { Success(ToI32(a as int + b as int)) }
  function Sub(a: i32, b: i32): Result<i32, Fault> { Success(ToI32(a as int - b as int)) }
  function Mul(a: i32, b: i32): Result<i32, Fault> { Success(ToI32(a as int * b as int)) }
  function Less(a: i32, b: i32): Result<i32, Fault> { Success(Bool(a < b)) }
  function LessEqual(a: i32, b: i32): Result<i32, Fault> { Success(Bool(a <= b)) }
  function Equal(a: i32, b: i32): Result<i32, Fault> { Success(Bool(a == b)) }
  function NotEqual(a: i32, b: i32): Result<i32, Fault> { Success(Bool(a != b)) }
  function GreaterEqual(a: i32, b: i32): Result<i32, Fault> { Success(Bool(a >= b)) }
  function Greater(a: i32, b: i32): Result<i32, Fault> { Success(Bool(a > b)) }
  function Negate(a: i32): i32 { ToI32(-(a as int)) }
  function Odd(a: i32): i32 { TruncRem(a, 2) }

  function ExecOPR(s: State, ins: Instr): Result<State, Fault>
  {
    var code := ins.a;
    if code == OP_ADD then Binary(s, Add)
    else if code == OP_SUB then Binary(s, Sub)
    else if code == OP_MUL then Binary(s, Mul)
    else if code == OP_DIV then Binary(s, Divide)
    else if code == OP_NEG then Unary(s, Negate)
    else if code == OP_LT then Binary(s, Less)
    else if code == OP_LE then Binary(s, LessEqual)
    else if code == OP_EQ then Binary(s, Equal)
    else if code == OP_NE then Binary(s, NotEqual)
    else if code == OP_GE then Binary(s, GreaterEqual)
    else if code == OP_GT then Binary(s, Greater)
    else if code == OP_ODD then Unary(s, Odd)
    else Failure(UnknownOpr(code))
  }

  /** A return address of 0 marks the main frame: returning from it ends the
      program. Otherwise the caller's frame is restored. */
  function ExecRET(s: State): Outcome
  {
    match ReadAt(s.stack, ToU32(s.bp + 1))
    case Failure(e) => Failed(e)
    case Success(word) =>
      var returnAddress := ToU32(word);
      if returnAddress == 0 then Halted(s)
      else
        match ReadAt(s.stack, s.bp)
        case Failure(e) => Failed(e)
        case Success(link) =>
          Running(s.(sp := s.bp, pc := ToU32(returnAddress - 1), bp := ToU32(link)))
  }

  function ExecLOR(s: State): Result<State, Fault>
  {
    var p :- Pop(s);
    var v :- ReadAt(s.stack, ToU32(p.value));
    Push(p.state, v)
  }

  function ExecSTR(s: State): Result<State, Fault>
  {
    var address :- Pop(s);
    var data :- Pop(address.state);
    Write(data.state, ToU32(address.value), data.value)
  }

  function ExecLBP(s: State): Result<State, Fault>
  {
    Push(s, ToI32(s.bp))
  }

  function ExecWRT(s: State): Result<State, Fault>
  {
    var p :- Pop(s);
    Success(p.state.(output := p.state.output + [p.value]))
  }

  function ExecLOA(s: State, ins: Instr): Result<State, Fault>
  {
    var address :- GetVariableAddress(s, ins.l, ToU32(ins.a));
    Push(s, ToI32(address))
  }

  function Lift(r: Result<State, Fault>): Outcome
  {
    match r
    case Success(t) => Running(t)
    case Failure(e) => Failed(e)
  }

  /** The dispatch of `Run`: one handler per implemented opcode, an error
      for every other opcode (including RAN_N and RAN). */
  function Exec(s: State, ins: Instr): Outcome
  {
    if ins.f == INT then Lift(ExecINT(s, ins))
    else if ins.f == LIT then Lift(ExecLIT(s, ins))
    else if ins.f == LOD then Lift(ExecLOD(s, ins))
    else if ins.f == STO then Lift(ExecSTO(s, ins))
    else if ins.f == CAL then Lift(ExecCAL(s, ins))
    else if ins.f == JMP then Lift(ExecJMP(s, ins))
    else if ins.f == JPC then Lift(ExecJPC(s, ins))
    else if ins.f == OPR then Lift(ExecOPR(s, ins))
    else if ins.f == RET then ExecRET(s)
    else if ins.f == LOR then Lift(ExecLOR(s))
    else if ins.f == STR then Lift(ExecSTR(s))
    else if ins.f == LBP then Lift(ExecLBP(s))
    else if ins.f == WRT then Lift(ExecWRT(s))
    else if ins.f == LOA then Lift(ExecLOA(s, ins))
    else Failed(UnknownInstruction(ins.f))
  }

  /** One iteration of `Run`: fetch, execute, then advance the program
      counter unless the program has ended. */
  function Step(s: State): (r: Outcome)
    ensures s.pc >= |s.program| ==> r == Failed(PcOutOfRange(s.pc))
    ensures r.Halted? ==> r.state == s && s.program[s.pc].f == RET
    ensures s.pc < |s.program| && s.program[s.pc].f > LOA ==>
      r == Failed(UnknownInstruction(s.program[s.pc].f))
    ensures r.Running? ==> r.state.program == s.program
  {
    if s.pc >= |s.program| then Failed(PcOutOfRange(s.pc))
    else
      match Exec(s, s.program[s.pc])
      case Running(t) => Running(t.(pc := ToU32(t.pc + 1)))
      case other => other
  }

  /** Executes at most `fuel` instructions. */
  function Run(s: State, fuel: nat): Outcome
  {
    Resume(Step, Running(s), fuel)
  }

  /** Carries on from an outcome with the step function `step`: a running
      machine takes at most `fuel` more steps, a stopped one stays as it
      is. */
  function Resume(step: State -> Outcome, o: Outcome, fuel: nat): Outcome
    decreases fuel
  {
    if fuel == 0 || !o.Running? then o else Resume(step, step(o.state), fuel - 1)
  }

  /** The machine as the constructor leaves it: a zeroed stack holding the
      main frame's three zero words, dynamic link, return address 0 and
      static link. */
  function Init(program: seq<Instr>): State
  {
    State(0, 0, 3, seq(StackCapacity, _ => 0), program, [])
  }
}
